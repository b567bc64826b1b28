# A verified model of the kernel's memory, scheduling and loading core

This project models, in Dafny, the core of an ARMv8-A multiprocessor kernel: user address
spaces with copy-on-write fork, the physical page allocator under them, the kernel heap,
the four-processor scheduler, sleeping mutexes and condition variables, the ELF loader with
demand paging, the dynamic linker's symbol binding, and the boot page tables. It proves what
these parts keep over every sequence of operations. `dafny verify dfyconfig.toml` verifies
everything.

## How it is built

**Address spaces.** `Descriptor` proves the bit operations on 64-bit table entries against a
decoded form. `Pool` is the allocator as its callers see it. `AddressSpace` holds the state of
all contexts (ledgers of owned pages, four-level tables in physical memory, user pages) and
the invariant tying them together; `TableSteps`, `ContextSteps`, `Coupling`, `World`,
`CloneProgress`, `CloneTally` and `CloneLeaves` prove that each step keeps it, with walk order
as an order on paths (`PathOrder`). `Region` is the fill of a faulting page; an image access
outside the image reads memory that is a parameter. `Mmu` is the code, as a class whose
methods update that state in place; `UserCopy` the copies across the user boundary; `Ranges`
what `munmap` does to a range.

The meaning of an address space is a ghost field `eager`: what a machine with a private copy
of every page would hold, each page with its bytes and with what the user may do to it. Every
method says what it does to that machine, which knows nothing of tables, reference counts or
sharing. `Runs` puts the methods together into arbitrary sequences of locked regions: each
request is granted exactly under a stated condition, and copy-on-write then leaves what eager
copying leaves. `ForkRights` says what granted and refused forks do to permissions.
`Guarantees` spells out the invariant for readers who do not want to follow the proof.

`PageAlloc` is the allocator itself (state array, links stored in the free pages, counters)
and refines `Pool`. `Lifecycle` models reference counting and lazy release of contexts that
processors may still be running on. `Shootdown` is the cross-processor invalidation protocol
as a state machine.

**The rest.** `HeapTiles` and `Heap`: first-fit arenas as block lists, and the headers in
memory that spell them; `HeapLive` is what callers hold. `RunQueue`, `Picking` and
`Scheduler`: linked run queues, which task a processor picks, and every scheduler region as a
method; `SchedulerRuns` holds runs from the initial state. `WaitQueue` and `Sync`: the queues,
and mutexes and conditions over park and unpark as a state machine with one step per locked
region; `Signals` says whom signals and broadcasts wake, `Ownership` adds who holds what, and
`SyncCode` proves that the code over wait queues and scheduler takes these steps.
`SymbolLookup` and `Binding`: the hash lookup with its cache, eager and lazy binding.
`ElfLoad`: from program headers to the regions of a process, in 64-bit arithmetic;
`FirstTouch`: what its pages then hold. `BootMap`: the tables built before the MMU is on.
`Wrappers` holds what several modules share.

Some invariants are wrapped in a recursive predicate whose depth the prover does not know
(`Sealed`, `SealedProgress`, `SealedTally`, `Standing`, `Upto`, `ClearedTo`, `Coupled`). That
hides the body wherever it is only passed on; the lemma next to it opens it.

## What the code does not guarantee

Each of these is a property one would expect that fails; the model keeps the code as it is,
proves exactly when the property holds, and has a member at a failing input.

- Fork leaves both sides able to write. `mmu_clone_walk_locked` marks every page
  copy-on-write, read-only ones too, and the fault handler makes any marked page writable.
  `ForkKeepsRights`: permissions survive if and only if every page was writable.
  `WriteAfterFork`: exactly when a write refused before a fork is granted after it;
  `ForkMakesWritable` is a run. A fork refused for want of pages leaves marks too.
  `RefusedKeepsRights`: permissions survive it if and only if every page before the table it
  stopped at was writable; `RefusedForkMakesWritable` is a run.
- `munmap` unmaps the wrong pages. `mmu_unmap_user_range` clears the first entry of the
  level-3 table of each address, and computes the end of its range in 64 bits. `RangeExact`
  says for which mappings and ranges it unmaps the caller's range and no more;
  `WrongPageUnmapped` and `WrappedRangeKept` are inputs. It is the only unmapping a system
  call reaches (`mmu_unmap_user_page`, which is right, has no caller).
- A segment the loader accepts can make faults read outside its image, in two ways: the sum
  of offset and file size wraps round, or the offset does not reach back to the start of the
  page. `BoundsExact` and `FaultsStayInside`: exactly when reads stay inside;
  `WrappedSumStrays` and `ShortOffsetStrays` are inputs.
- An image that starts inside a page gets a bias that is not page-aligned, and then a segment
  can begin on a page that starts before its region, which reads as zeros. `FrontKept`:
  exactly when none of its bytes is lost; `FirstPageLost` is a run of the loader.
- The loader puts each position-independent image 64 KiB above the one before, however long
  that is. `ImagesApart`: exactly when two in a row are apart; `ImagesOverlap` is a run in
  which a program finds its interpreter in the middle of its own text.
- `sched_pick_next_locked` searches its own queue and one other. `OverlooksExact`: a processor
  idles although a ready task is queued if and only if both hold only stale entries and a
  third queue holds the ready one; `IdlesPastWork` is a run that ends there.
- A parked task can be picked up by a second processor before its first one has switched
  away, so `sched_wait4` and `task_exit` can find their caller already gone. `Wait` and `Exit`
  say exactly when the gone come back and when the invariant breaks; `DeadRevived` is a run
  from boot in which a dead task blocks itself and lives again, `ExitsWhileReaped` one in
  which a task that is being reaped exits a second time.
- `sched_park_task` does nothing for the four idle tasks. `IdleExact` and `IdleWaitExact` say
  what an idle task's `mutex_lock` and `condvar_wait` do, `IdleReturnsUnowned` is a state, and
  `StepExact`: the steps that break the invariant are exactly those of a blocking idle task.
- `mutex_unlock` and `condvar_wait` do not ask who owns the mutex. `OwnersExact`: owners are
  who they should be after a step if and only if it does not take a locked mutex from another
  task and does not wait without it; `StrangerUnlocks` is a run that ends with two holders.
- `kmalloc` rounds sizes up in 64 bits. `GivesBytes`: the block has the bytes asked for if and
  only if the size is at most 2^64 - 16; `EmptyBlock` gets no bytes at all. `GrowsInVain`: for
  sizes whose page count wraps round the heap grows and still returns null; `GrownInVain` is
  a run.
- `page_free_contiguous` computes the end of its range in 64 bits. `OverrunsExact`: when its
  scan reads past the page table; `WrapsRound` is a family of such calls, `ScanLeavesTable` a
  run.
- `page_ref_dec` takes any address inside a page. `RefDec`: the allocator stays consistent if
  and only if the address is aligned or the reference was not the last; `UnalignedDrop` is a
  run.
- `mmu_context_get` increments a 32-bit count without a ceiling. `Get`: the discipline
  survives if and only if the count does not wrap; `CountWraps` is a run.

Two paths turn out to be dead: the block split and the block merge of user tables never
happen, because no reachable user table holds a block and a table just unmapped from has an
invalid entry. And `mmu_clone_walk_locked` never fails for want of room in the clone's ledger.

## Model

| member | source | states |
|---|---|---|
| Descriptor.TableWordDecodes | src/kernel/mmu_vmsa.c:79-94 | The word built for a new sub-table decodes to a valid table entry for exactly that page, for every page address |
| Descriptor.ClonedTableWordDecodes | src/kernel/mmu_vmsa.c:722-736 | The word a clone writes for a copied table names the new page and keeps every attribute of the parent entry |
| Descriptor.PageWordDecodes | src/kernel/mmu_vmsa.c:992-1014 | The word a mapping writes names the page and carries the requested flags plus the non-global bit |
| Descriptor.CowWordDecodes | src/kernel/mmu_vmsa.c:740-745 | Marking copy-on-write makes an entry read-only and marked, whatever it was, and changes nothing else |
| Descriptor.UpgradedWordDecodes | src/kernel/mmu_vmsa.c:1169-1173 | The in-place upgrade undoes exactly the read-only and copy-on-write bits |
| Descriptor.ReplacedWordDecodes | src/kernel/mmu_vmsa.c:1196-1197 | The entry of a private copy has the new page, the old flags, is writable and unmarked |
| Descriptor.AccessBits | src/kernel/mmu_vmsa.c:331-341 | The two-bit permission test is the same as "user accessible" and "user accessible and not read-only" |
| Descriptor.UserFlags | src/kernel/mmu_vmsa.c:1287-1289 | The flags of a heap or stack page decode to user, writable, never executable |
| Descriptor.BootPageDecodes | src/kernel/mmu_boot.c:199-201 | A boot page word names its page and carries exactly its flags |
| Descriptor.BootBlockDecodes | src/kernel/mmu_boot.c:207-214 | A boot block word names its block and carries exactly its flags |
| Mmu.Mmu.constructor | src/kernel/mmu_vmsa.c:60-62 | With no context yet, all allocated pages belong to others and the invariant holds |
| Mmu.Mmu.AsidAlloc | src/kernel/mmu_vmsa.c:121-148 | The first free identifier in 1..255 from the cursor on, wrapping round, marked used and nothing else, with the cursor behind it; 0 exactly when all 255 are in use |
| Mmu.Mmu.AsidFree | src/kernel/mmu_vmsa.c:150-168 | Clears exactly that bit, and nothing for identifiers outside 1..255 |
| Mmu.Mmu.HasPage | src/kernel/mmu_vmsa.c:175-190 | Answers exactly whether the ledger holds the page |
| Mmu.Mmu.AddPage | src/kernel/mmu_vmsa.c:192-208 | Succeeds exactly for a non-null page already tracked or while there is room for one of 256; adds it once, at the end |
| Mmu.Mmu.RemovePage | src/kernel/mmu_vmsa.c:210-235 | Removes the page exactly when it is tracked, closing the gap and keeping the order |
| Mmu.Mmu.AllocSubTable | src/kernel/mmu_vmsa.c:79-94 | A zeroed page tracked by this context alone, exactly when a page is free and the ledger has room; otherwise the state before |
| Mmu.Mmu.FindPte | src/kernel/mmu_vmsa.c:941-989 | Finds the level-3 table of a virtual page, adding tables when asked; succeeds exactly when the missing tables do not outnumber the pages to be had; no mapping of any context changes, even on failure |
| Mmu.Mmu.MapUserPage | src/kernel/mmu_vmsa.c:992-1014 | On success exactly this virtual page reads the new page with the new flags; on failure no address space changed; success exactly when the missing tables can be had |
| Mmu.Mmu.MergeScan | src/kernel/mmu_vmsa.c:1050-1066 | A table found mergeable has 512 valid entries |
| Mmu.Mmu.UnmapUserPage | src/kernel/mmu_vmsa.c:1081-1112 | Says exactly whether the page was mapped and removes exactly that mapping; no page is freed and the merge into a block never happens |
| Mmu.Mmu.ClearFirst | src/kernel/mmu_vmsa.c:1373-1382 | One round of a range unmapping: the page that disappears is the first of its 2 MiB; exactly its ledger entry goes and its page loses one reference, or nothing changes if there is none |
| Mmu.Mmu.UnmapRange | src/kernel/mmu_vmsa.c:1362-1386 | The whole loop, over 64-bit bounds that may wrap: exactly the first pages of the 2 MiB pieces the range touches disappear, and no other address space changes |
| Ranges.RangeExact | src/kernel/mmu_vmsa.c:1362-1386 | For every address and length, this unmaps the pages of the caller's range and no other, if and only if: where the range ends below 2^64, every mapped page of it is the first of its 2 MiB and every mapped first page touched is in it; where it does not, no mapped page is in it, save the one first page of a range that goes all the way round |
| Ranges.WrongPageUnmapped | src/kernel/mmu_vmsa.c:1373-1382 | With two pages mapped, unmapping the second removes the first and keeps the second |
| Ranges.WrappedRangeKept | src/kernel/mmu_vmsa.c:1369-1372 | A range that ends at 2^64 unmaps nothing, though its one mapped page is in it and is the first of its 2 MiB |
| Mmu.Mmu.ContextCreate | src/kernel/mmu_vmsa.c:431-473 | Succeeds exactly with memory for the handle, a free page and a free identifier; then an empty address space with its own root; otherwise the state before, page and identifier returned |
| Mmu.Mmu.ContextRelease | src/kernel/mmu_vmsa.c:634-677 | Every tracked page loses one reference, the identifier is freed, and every other address space reads as before |
| Mmu.Mmu.CloneLeafEntry | src/kernel/mmu_vmsa.c:740-770 | Sharing one leaf never fails: the clone's ledger cannot be full while its parent has an entry it lacks |
| Mmu.Mmu.CloneWalk | src/kernel/mmu_vmsa.c:713-774 | After the recursive walk the clone maps, under this table, exactly what its parent maps, and every page is marked in both; a walk stops early only when there are fewer pages than the parent has tables, and then at the table that found none left, with exactly the pages before it marked |
| Mmu.Mmu.ContextClone | src/kernel/mmu_vmsa.c:776-817 | Succeeds exactly when there is memory for the handle, a free identifier and one free page per table of the parent; then it costs that many pages, both sides read what the parent read, each user page is marked and may be written by either, and nobody else can tell. A refusal before the walk changes nothing at all; one during it leaves contexts, reference counts, identifiers and all bytes as before and marks exactly the parent's pages before the table it stopped at |
| Mmu.Mmu.ResolveDesc | src/kernel/mmu_vmsa.c:267-302 | Finds the entry the walk defines, and fails only where the address space maps nothing |
| Mmu.Mmu.ResolvePage | src/kernel/mmu_vmsa.c:304-329 | A result exactly where the address space maps a page, and then that page with its bytes |
| Mmu.Mmu.CowFault | src/kernel/mmu_vmsa.c:1151-1213 | Succeeds exactly for a present, read-only, marked entry that is unshared or can be copied; then the entry is writable and unmarked, and the eager machine does not notice; a refused fault changes no page, table or ledger |
| Mmu.Mmu.TranslationFault | src/kernel/mmu_vmsa.c:1215-1308 | Succeeds exactly if the page is there already, or something fills it and there are pages for it and its missing tables; then exactly this page appears, with the bytes and permissions of what fills it, referenced once, at the cost of one page for it and one for each missing table; otherwise no mapping changes |
| Mmu.Mmu.HandleFault | src/kernel/mmu_vmsa.c:1311-1349 | Only translation and permission faults can succeed, each under its exact condition and with its effect |
| Mmu.FaultKinds | src/kernel/mmu_vmsa.c:1133-1150 | Status codes 4 to 7 are translation faults and 12 to 15 permission faults, and no other is either |
| Mmu.FillFor | src/kernel/mmu_vmsa.c:1221-1308 | What fills a faulting page: the deciding region, else the heap or the stack range, else nothing |
| Mmu.Mmu.CopyChunk | src/kernel/mmu_vmsa.c:366-426 | One locked region of a user copy: missing exactly if unmapped, denied exactly if mapped without the permission, else the bytes move between the buffer and this page of this address space only |
| Region.LoadPage | src/kernel/mmu_vmsa.c:1232-1250 | Byte by byte: all zero unless the region is an ELF region with an image; else the image byte at the 64-bit sum of offset and distance inside the file part and zero past it; where the index leaves the image, whatever memory holds there |
| Region.FindRegion | src/kernel/mmu_vmsa.c:1221-1230 | The region added last among those that cover the address decides; none exactly if none covers it |
| Region.RegionGives | src/kernel/mmu_vmsa.c:1221-1255 | A fault inside some region is filled, with the flags of the last one that holds the address, and with 4096 zeros if that is a heap or anonymous region |
| Region.OutsideGives | src/kernel/mmu_vmsa.c:1273-1289 | Outside all regions a fault is filled if and only if the address is below the break from 0x10000000 on or in the last megabyte below 0x80000000, and then with 4096 zeros the user may write and nobody may execute |
| UserCopy.CopyPage | src/kernel/mmu_vmsa.c:362-426 | One page, retried after each fault the handler resolves: terminates, and succeeds exactly when the page is mapped with permission, or (in the caller's own address space) copy-on-write can be broken, or it can be faulted in with permission |
| UserCopy.CopyUserRange | src/kernel/mmu_vmsa.c:343-429 | Success means the whole transfer; a range mapped with permission never fails; without leave to fault, nothing else succeeds; no other address space ever changes |
| UserCopy.TransferBytes | src/kernel/mmu_vmsa.c:414-426 | After a copy of at most 2^48 bytes, memory and buffer agree at every byte, across any number of pages and address wrap-around |
| UserCopy.TransferFrame | src/kernel/mmu_vmsa.c:414-426 | A copy into memory changes only the bytes it names, a copy out changes none, and other address spaces keep all of theirs |
| UserCopy.TransferStores | src/kernel/mmu_vmsa.c:414-421 | A copy into memory stores the buffer itself |
| Runs.Step | src/kernel/mmu_vmsa.c:776-817 | One locked region: the request is granted exactly under its condition (memory and identifiers to be had, a mapping with the permission, a mark to break, something to fill the page), and leaves the memory that the machine with private copies would leave, with the marks of a refused fork determined by the state before it |
| Runs.Run | src/kernel/mmu_vmsa.c:713-817 | Copy-on-write fork refines eager copy: over every sequence of creations, forks, releases, faults, reads, writes and unmappings of any number of address spaces, each answer is the exact one for the state it was asked in and each state is the eager machine's; an address space no event names keeps every byte, and every permission unless it was forked |
| Runs.Isolated | src/kernel/mmu_vmsa.c:740-770 | Over any trace of such steps, an address space changes only by its own events; being forked adds marks and nothing else |
| ForkRights.ForkKeepsRights | src/kernel/mmu_vmsa.c:740-745 | A fork keeps every byte, and keeps every permission if and only if every page was writable |
| ForkRights.WriteAfterFork | src/kernel/mmu_vmsa.c:1151-1213 | On a page the user may read and not write: the write is denied and the fault refused, the fork is granted exactly when it can be, and the next fault is granted exactly if it was, a free page was left besides one for each of the parent's tables and its ledger had room; the same write then succeeds |
| ForkRights.ForkMakesWritable | src/kernel/mmu_vmsa.c:740-770 | A run from the initial state: a store to a page of a read-only region is denied, a fork succeeds, and the same store is done |
| ForkRights.RefusedAt | src/kernel/mmu_vmsa.c:713-774 | A fork that runs out of pages stops at exactly one table of the parent, the one in walk order for which no page is left, and marks exactly the pages before it |
| ForkRights.RefusedKeepsRights | src/kernel/mmu_vmsa.c:740-745 | Such a fork keeps every byte, and every permission if and only if every page before that table was writable |
| ForkRights.StopExists | src/kernel/mmu_vmsa.c:713-739 | With at least one and fewer free pages than tables, there is such a table |
| ForkRights.LowPagesMarked | src/kernel/mmu_vmsa.c:713-774 | With four free pages, a fork refused in the walk has marked all pages of the lowest 2 MiB |
| ForkRights.RefusedForkMakesWritable | src/kernel/mmu_vmsa.c:776-817 | A run from the initial state: a store to a read-only page is denied, a fork is refused for want of pages, and the same store is done |
| Guarantees.WalkAgrees | src/kernel/mmu_debug.c:233-324 | The debug walker, which honours blocks, finds an address exactly where the address space maps a page, and the same one |
| Guarantees.WritableIsExclusive | src/kernel/mmu_vmsa.c:1162-1209 | In every reachable state a page some context may write is referenced once and mapped at one address of one context |
| Guarantees.LedgerExact | src/kernel/mmu_vmsa.c:192-208 | A tracked page is tracked once per context, its reference count is the number of contexts that track it, and the count never saturates |
| Guarantees.ReachedIsTracked | src/kernel/mmu_vmsa.c:634-677 | Every table and page a walk can reach is tracked by the context that walks, and tables are shared with nobody |
| Guarantees.EverythingReturned | src/kernel/mmu_vmsa.c:634-677 | When the last context is gone every page is free again except those other subsystems hold, whatever the run was |
| Guarantees.DistinctAsids | src/kernel/mmu_vmsa.c:121-168 | Live contexts hold distinct identifiers in 1..255 and the bitmap holds exactly those |
| Guarantees.EntriesPlain | src/kernel/mmu_vmsa.c:992-1014 | In every reachable state entries above level 3 carry no restricting attribute and every user page is cached under its identifier alone |
| TableSteps.NeverSaturates | src/kernel/page_alloc.c:349-368 | At most 255 contexts exist, so no reference count reaches its ceiling |
| ContextSteps.SharedAreReadOnly | src/kernel/mmu_vmsa.c:740-770 | Once the owner's entry is read-only, so is every other entry for that page |
| CloneTally.LedgerRoom | src/kernel/mmu_vmsa.c:758-760 | While a parent has an entry its clone lacks, the clone tracks fewer pages than the parent, so its ledger has room |
| CloneTally.Short | src/kernel/mmu_vmsa.c:725-726 | A clone that finds no free page had fewer pages than its parent has tables |
| CloneTally.TallyDone | src/kernel/mmu_vmsa.c:713-774 | A whole walk made one table for each of the parent's, at the cost of one page each, and marked every leaf it shares |
| CloneTally.HaltsHere | src/kernel/mmu_vmsa.c:725-726 | Without a free page the walk halts with exactly the pages before this table marked |
| CloneTally.OneStop | src/kernel/mmu_vmsa.c:713-739 | At most one table has as many of the parent's tables before it as there are free pages |
| CloneTally.HaltMeans | src/kernel/mmu_vmsa.c:713-774 | What a halted walk left marked is what the state before the clone says |
| CloneTally.TablesAre | src/kernel/mmu_vmsa.c:722-739 | The tables counted are exactly those a walk from the root can pass through |
| PathOrder.PrecedesEntry | src/kernel/mmu_vmsa.c:717-722 | Walk order, stated on paths: what comes before entry i of a table is the table, all under its earlier entries, and all before the table |
| CloneProgress.WholeClone | src/kernel/mmu_vmsa.c:713-774 | After the walk from the roots the clone's map equals its parent's, page by page, byte by byte and permission by permission, and all of it is marked |
| World.CountsDetermined | src/kernel/mmu_vmsa.c:776-817 | Reference counts and identifier bitmap follow from the ledgers, so a failed clone restores them |
| PageAlloc.PageAllocator.constructor | src/kernel/page_alloc.c:170-214 | All of RAM above the kernel is free, listed from the top page down, and nothing is allocated |
| PageAlloc.PageAllocator.Alloc | src/kernel/page_alloc.c:216-241 | The state array, in-page links and counter implement taking the head of the free list with count 1, and refuse exactly when it is empty |
| PageAlloc.PageAllocator.Free | src/kernel/page_alloc.c:294-347 | Drops one reference, returns the page at zero, and ignores null, foreign, unaligned and free pages; foreign and unaligned ones count as invalid, free ones as double frees |
| PageAlloc.PageAllocator.RefInc | src/kernel/page_alloc.c:349-368 | One reference more on the page that holds the address, saturating at 65535, and nothing for pages not allocated |
| PageAlloc.PageAllocator.RefGet | src/kernel/page_alloc.c:409-428 | The count of the page that holds the address, 0 if it is not allocated |
| PageAlloc.PageAllocator.RefDec | src/kernel/page_alloc.c:370-407 | One reference less; the allocator stays consistent if and only if the address is page-aligned or was not the last reference, and otherwise no free list explains its state |
| PageAlloc.UnalignedDrop | src/kernel/page_alloc.c:370-407 | A run from the initial state: the last reference dropped through an address inside the page leaves a state no free list explains |
| PageAlloc.PageAllocator.Rebuild | src/kernel/page_alloc.c:150-168 | The free list becomes exactly the free pages in address order |
| PageAlloc.PageAllocator.AllocContiguous | src/kernel/page_alloc.c:243-292 | The lowest run of that many free pages, refused exactly when there is none; marks those pages and no other |
| PageAlloc.PageAllocator.FreeContiguous | src/kernel/page_alloc.c:430-479 | For every address and count whose scan stays in the page table: frees the run exactly when it is aligned, in range and wholly allocated; otherwise nothing changes but the count of invalid or of double frees |
| PageAlloc.EndExact | src/kernel/page_alloc.c:450-455 | The 64-bit range test is the one meant while the range ends below 2^64 |
| PageAlloc.OverrunsExact | src/kernel/page_alloc.c:450-467 | In every consistent state: the excluded calls are exactly those that pass the range test and whose scan, every entry before it allocated, reads one past the table |
| PageAlloc.WrapsRound | src/kernel/page_alloc.c:450-467 | A count of 2^52 pages passes the test from any aligned address, and if all pages from there on are allocated the scan reads an entry past the table |
| PageAlloc.ScanLeavesTable | src/kernel/page_alloc.c:450-467 | A run from the initial state after which such a call reads past the table |
| PageAlloc.PageAllocator.CountFreeList | src/kernel/page_alloc.c:132-148 | Following the links counts the free list |
| PageAlloc.PageAllocator.CheckConsistency | src/kernel/page_alloc.c:550-590 | In every reachable state the kernel's own audit reports no mismatch |
| PageAlloc.FreeFromExact | src/kernel/page_alloc.c:150-168 | The rebuilt list is strictly ascending and holds exactly the free pages |
| PageAlloc.RunFits | src/kernel/page_alloc.c:243-292 | A free run is never longer than the free count says, so the early refusal by count refuses nothing that exists |
| Lifecycle.Lifecycle.Get | src/kernel/mmu_vmsa.c:616-632 | Refused exactly for a dying context; the reference and release discipline survives if and only if the 32-bit count does not wrap |
| Lifecycle.CountWraps | src/kernel/mmu_vmsa.c:616-632 | A run of 2^32 calls after which a context in use has count 0 |
| Lifecycle.Lifecycle.Put | src/kernel/mmu_vmsa.c:679-704 | The last reference marks the context dying, and releases it exactly when no processor runs it |
| Lifecycle.Lifecycle.Switch | src/kernel/mmu_vmsa.c:874-918 | Leaves the old context, enters the new one unless it is dying, and releases the old one exactly if it was dying and this was the last processor |
| Lifecycle.Lifecycle.Run | src/kernel/mmu_vmsa.c:616-918 | Over every interleaving of create, get, put and switch on four processors, dying is for ever and no context is released twice |
| Lifecycle.ReleasedOnce | src/kernel/mmu_vmsa.c:679-704 | A context is released exactly when it has no reference and no processor runs it, at most once, and never while one does |
| Shootdown.StepInv | src/kernel/mmu_vmsa.c:497-574 | Every step of initiators and handlers, in any order, keeps the protocol invariant |
| Shootdown.RunInv | src/kernel/mmu_vmsa.c:497-574 | So every run does |
| Shootdown.Acknowledged | src/kernel/mmu_vmsa.c:526-574 | Whenever a shootdown returns, every target processor invalidated the requested identifier after the request was published |
| Shootdown.ShotDown | src/kernel/mmu_vmsa.c:527-574 | Stated on the steps taken and the mask read: whenever a shootdown returns, in any interleaving, it took the lock for some identifier, held it throughout and read a mask, and after its request was posted every processor of that mask and the requester itself invalidated that identifier |
| HeapTiles.TakenTidy | src/kernel/heap.c:202-250 | Taking a block of any size, 0 too, keeps the tiling: same bytes in all, no two free neighbours, last block not empty; the block has at least the size and less than a split more; used and free bytes balance |
| HeapTiles.FreedTidy | src/kernel/heap.c:252-270 | Freeing and coalescing keeps the tiling and balances used, free and header bytes |
| HeapTiles.Restored | src/kernel/heap.c:202-270 | Freeing what was just taken restores the tiling exactly |
| Heap.Heap.SplitBlock | src/kernel/heap.c:202-228 | The header writes implement the split of the block list, and touch nothing outside the arena |
| Heap.Heap.AllocateFrom | src/kernel/heap.c:230-250 | First fit: the first free block large enough, refused exactly when there is none |
| Heap.Heap.AddArena | src/kernel/heap.c:159-200 | A new arena is one free block of all its usable bytes; a refusal counts as a failure and changes nothing else |
| Heap.Heap.Kmalloc | src/kernel/heap.c:288-326 | For every 64-bit size. 0 gives null; otherwise the first fitting block of the first arena that has one, else a new arena of the computed number of pages if that fits, else null |
| Heap.GivesBytes | src/kernel/heap.c:288-326 | What is returned is the payload of a used block, which has the bytes asked for if and only if the size is at most 2^64 - 16 |
| Heap.EmptyBlock | src/kernel/heap.c:288-326 | The largest size gives a used block of no bytes |
| Heap.GrowsInVain | src/kernel/heap.c:316-325 | The heap grows and null is returned exactly when no block fits, pages are granted, and the page count wrapped round |
| Heap.GrownInVain | src/kernel/heap.c:316-325 | A request of an empty heap that returns null and leaves it a page larger |
| Heap.Heap.Coalesce | src/kernel/heap.c:252-270 | The header writes implement merging with the next and the previous free block |
| Heap.Heap.Kfree | src/kernel/heap.c:328-359 | Null, stray pointers and free blocks change nothing; a payload address frees exactly its block, merged with its free neighbours |
| Heap.Heap.FindArena | src/kernel/heap.c:88-111 | The arena that contains the address, or none exactly if none does |
| Heap.Payloads | src/kernel/heap.c:230-250 | Payloads are 16-byte aligned, inside their arena and in order |
| Heap.PayloadsApart | src/kernel/heap.c:230-250 | Payloads of different blocks, of one arena or two, are disjoint and a header apart |
| Heap.FreeUndoes | src/kernel/heap.c:288-359 | Freeing what an allocation just returned restores every arena |
| HeapLive.MallocLive | src/kernel/heap.c:288-326 | What callers hold, by address and size: an allocation that succeeds adds one payload nobody held, of at least the aligned size and less than 48 bytes more, and every other payload stays where it is; one that fails changes none |
| HeapLive.FreeLive | src/kernel/heap.c:328-359 | A free takes away exactly the payload freed, and every other stays where it is with its size |
| Heap.IdleIsWhole | src/kernel/heap.c:252-270 | When no bytes are in use an arena is again one free block, if and only if no empty block is still out |
| Heap.OnePayload | src/kernel/heap.c:328-359 | A payload address names one block of one arena |
| Heap.PagesFor | src/kernel/heap.c:76-86 | The pages asked for hold headers and aligned size exactly when the 64-bit sums did not wrap, are the fewest that do, and are none exactly when rounding up wraps |
| Scheduler.Scheduler.Enqueue | src/kernel/sched.c:48-69 | Appends a task not yet queued, never an idle one, and links, length and marks stay consistent |
| Scheduler.Scheduler.Dequeue | src/kernel/sched.c:71-90 | Takes the head, or nothing exactly if the queue is empty |
| Scheduler.Scheduler.Remove | src/kernel/sched.c:92-129 | Finds every queued entry wherever it is, takes exactly it, and keeps the order of the rest |
| Scheduler.Scheduler.LeastLoaded | src/kernel/sched.c:131-155 | The first shortest queue from the rotating start on; the start moves behind it |
| Scheduler.Scheduler.Pick | src/kernel/sched.c:157-190 | Exactly the first ready task of its own queue, else of the lowest-numbered longest other queue, with the stale entries before it dropped; nothing if and only if both hold no ready task |
| Picking.PicksNothing | src/kernel/sched.c:157-190 | Nothing is picked if and only if its own queue and the victim's hold no ready task |
| Picking.OverlooksExact | src/kernel/sched.c:157-190 | Nothing is picked although some queue holds a ready task, if and only if own queue and victim are all stale and a third queue has one; the same holds of the queues afterwards |
| Picking.FreshNeverOverlooks | src/kernel/sched.c:157-190 | Without stale entries that never happens |
| Picking.OneVictim | src/kernel/sched.c:165-180 | The victim is unique: the lowest-numbered of the longest other queues |
| Picking.PickMeans | src/kernel/sched.c:157-190 | The pick by places: the first ready task of the own queue; only if all of that is stale, the first ready one of the victim; what stood before it is dropped and every other queue is untouched |
| SchedulerRuns.IdlesPastWork | src/kernel/sched.c:661-733 | A run from boot after which processor 2 idles while a ready task waits on queue 1 |
| Scheduler.Scheduler.MakeReady | src/kernel/sched.c:192-203 | Ready and queued, idle tasks untouched |
| Scheduler.Scheduler.constructor | src/kernel/sched.c:250-298 | Four idle tasks run, one per processor, and all queues are empty |
| Scheduler.Scheduler.Create | src/kernel/sched.c:300-474 | Refused exactly without a slot or a stack; otherwise a fresh identifier, ready if a kernel task and blocked if a user task |
| Scheduler.Scheduler.Detach | src/kernel/sched.c:481-548 | A dead slot on no processor leaves its queue and is listed for reaping, which never happened before; no other task changes |
| Scheduler.Scheduler.Tick | src/kernel/sched.c:625-659 | Processor 0 counts every sleeper down by one and readies exactly those that reach zero, at the ends of queues; no other field of any task changes; other processors change nothing |
| Scheduler.Scheduler.Schedule | src/kernel/sched.c:661-733 | Task by task: the one that leaves is dead if a kill was pending, ready if it was running, else as it was, and on no processor; the one that comes was ready, or is the idle one; nobody else changes. It idles past a ready task if and only if the picking overlooked it; with no stale entries only if every queue is empty |
| Scheduler.IdleMeansEmpty | src/kernel/sched.c:157-190 | Stealing from a longest queue is enough: an idle choice without stale entries means no queue holds anything |
| Scheduler.Scheduler.Exit | src/kernel/sched.c:735-790 | For every caller: zombie exactly if some used slot has its parent's identifier and it is not the first user task, else dead; its children, and no others, pass to the first user task; a blocked parent, and nobody else, becomes ready; the gone stay gone; the invariant survives if and only if the caller was not already being reaped |
| Scheduler.Scheduler.Wake | src/kernel/sched.c:889-917 | A blocked task not marked for death becomes ready on the shortest queue; no other task changes, and otherwise nothing does |
| Scheduler.Scheduler.Park | src/kernel/sched.c:926-949 | Blocks exactly a live, unkilled, non-idle task without a pending wake-up, and consumes the wake-up otherwise |
| Scheduler.Scheduler.Unpark | src/kernel/sched.c:951-982 | Readies a blocked task, leaves a wake-up for any other live one, and does nothing to the gone |
| Scheduler.Scheduler.Block | src/kernel/sched.c:871-887 | Blocks a live non-idle task and takes it off its queue, changing no other task; else nothing changes |
| Scheduler.Scheduler.Sleep | src/kernel/sched.c:984-1011 | Sleeps for the ticks asked, off its queue, and is ready at once for zero; no other task changes |
| Scheduler.Scheduler.Wait | src/kernel/sched.c:1027-1063 | For every caller: collects the zombie child in the lowest slot whenever there is one, reports no child exactly when there is none, and otherwise blocks the caller; the gone stay gone if and only if it does not block a caller that is gone |
| Scheduler.Scheduler.Kill | src/kernel/sched.c:1091-1133 | Kills exactly a living, non-idle task other than the caller: at once, or at its next switch if it runs |
| SchedulerRuns.KillAndSwitch | src/kernel/sched.c:661-690 | From any state, a task killed while a processor runs it is gone once that processor has switched, and runs there no longer |
| Scheduler.Scheduler.Run | src/kernel/sched.c:661-1133 | Over every interleaving of these regions on four processors and 32 slots, up to the first wait or exit by a caller already gone, the invariant holds: the gone stay gone, a pending kill is pending until its task is gone, identifiers are never reused, and every slot is reaped at most once |
| Scheduler.BlockingTheGone | src/kernel/sched.c:1027-1063 | Blocking a caller revives it exactly if it is already gone, and breaks the invariant exactly if it is being reaped |
| SchedulerRuns.DeadRevived | src/kernel/sched.c:1027-1063 | A run from boot: a task current on two processors is killed and leaves one of them, waits on the other while dead, and is alive again |
| SchedulerRuns.ExitsWhileReaped | src/kernel/sched.c:735-790 | A run from boot: a task current on two processors is killed, is taken by the reaper, and then exits on the other processor; the invariant is broken and its slot is dead or a zombie again while it is being reaped |
| Scheduler.ExitingTwice | src/kernel/sched.c:763-768 | Publishing a final state keeps the invariant exactly if the slot is not already being reaped |
| RunQueue.UnlinkLinked | src/kernel/sched.c:92-129 | Unlinking from any position leaves links, length and marks of all queues consistent |
| RunQueue.AppendLinked | src/kernel/sched.c:48-69 | So does appending |
| Sync.StepInv | src/kernel/mutex.c:46-129 | Every step of mutexes, conditions, park and unpark, by any task, keeps the invariant, whoever owns what |
| Sync.RunInv | src/kernel/mutex.c:46-129 | So every interleaving of any number of tasks, mutexes and conditions does |
| Sync.StepExact | src/kernel/sched.c:926-949 | From a state that satisfies it, a step breaks the invariant if and only if it makes an idle task block |
| Sync.NoLostWakeup | src/kernel/sched.c:926-982 | A parked task is still queued, or exactly then not, when some other task is about to unpark it; it never sleeps on a pending wake-up |
| Sync.HandoffOrder | src/kernel/mutex.c:102-129 | Ownership passes in the order of arrival, with the mutex never free while somebody waits |
| Sync.AtomicWait | src/kernel/condvar.c:41-72 | Release and wait are atomic: from before the mutex is released a waiter is queued, signalled or about to be woken |
| Sync.SignalMisses | src/kernel/condvar.c:74-103 | A signal that finds nobody queued missed nobody: every waiter already has its wake-up |
| Sync.CondWaitRelocks | src/kernel/condvar.c:41-72 | A woken waiter goes on to lock its mutex and returns only as its owner |
| Sync.IdleReturnsUnowned | src/kernel/mutex.c:46-83 | A state in which an idle task returns from locking a held mutex without owning it, still queued |
| Sync.IdleExact | src/kernel/mutex.c:46-83 | For idle tasks locking gives ownership exactly if the mutex was free or already theirs |
| Sync.IdleWaitExact | src/kernel/condvar.c:41-72 | Uninterrupted, a condition wait ends parked for any other task, and for an idle one goes on to take the mutex again while still queued on the condition |
| Signals.BroadcastReachesAll | src/kernel/condvar.c:88-103 | Over every run: a broadcast returns only by a round of its own that found nobody queued, and by then every task queued when it was called has been taken off and woken, unless another signaller took it off and is about to wake it |
| Signals.SignalTakesHead | src/kernel/condvar.c:74-86 | A signal takes exactly the head of the queue and owes it a wake-up; on an empty queue it does nothing |
| Signals.SignalWakesHead | src/kernel/condvar.c:74-86 | Over every run: a signal to a queue that is not empty takes nobody but its head, and returns by waking it |
| Signals.WaitReturns | src/kernel/condvar.c:41-72 | Over every run: a condition wait returns only after somebody took the caller off the queue and woke it, and by locking the mutex it was called with |
| Ownership.OwnersExact | src/kernel/mutex.c:102-129 | The recorded owner of each mutex is exactly who holds it or has been handed it, after a step, if and only if the step does not take a locked mutex from another task and does not enter a condition wait without it |
| Ownership.Exclusion | src/kernel/mutex.c:46-129 | Mutual exclusion: over every run of such steps whoever holds a mutex is its owner, and no two tasks hold one |
| Ownership.ReturnsOwner | src/kernel/mutex.c:46-83 | Where owners are as recorded, whoever returns from locking owns the mutex |
| Ownership.OwnerStays | src/kernel/mutex.c:102-129 | In such a run the owner changes only by its own unlock or condition wait |
| Ownership.ReleaseOwns | src/kernel/condvar.c:55-66 | A condition wait still owns the mutex when it comes to release it |
| Ownership.StrangerUnlocks | src/kernel/mutex.c:102-129 | A run in which a second task unlocks a held mutex and then both hold it |
| SyncCode.Kernel.LockMutex | src/kernel/mutex.c:46-83 | The code, on flags, owners and intrusive queues: locks a free mutex or queues the caller, as the step of the state machine does |
| SyncCode.Kernel.TryLockMutex | src/kernel/mutex.c:85-100 | Locks exactly if free, as the step does |
| SyncCode.Kernel.UnlockMutex | src/kernel/mutex.c:102-129 | Whoever calls: frees the mutex or hands it to the head of its queue, as the step does |
| SyncCode.Kernel.EnterWait | src/kernel/condvar.c:55-59 | The waiter is queued under the lock of the condition, as the step does |
| SyncCode.Kernel.ReleaseMutex | src/kernel/condvar.c:61-65 | Then its mutex is handed on, as the step does |
| SyncCode.Kernel.SignalCond | src/kernel/condvar.c:74-103 | One waiter is taken, first in first out, as the step of the state machine does, and a broadcast goes on as `Signals` says |
| SyncCode.Kernel.ParkTask | src/kernel/sched.c:926-949 | The scheduler's park does to the task slot what the step does to the phase and the token |
| SyncCode.Kernel.UnparkTask | src/kernel/sched.c:951-982 | And its unpark for the task that is woken |
| SyncCode.Kernel.Switch | src/kernel/sched.c:661-733 | A processor switch changes nothing the mutexes and conditions see |
| SyncCode.Kernel.Run | src/kernel/mutex.c:46-129 | Over every interleaving of these regions and of processor switches, mutexes, queues and task slots are what the state machine says, so everything proved of it holds of them |
| SyncCode.BlockedIsAwaited | src/kernel/sched.c:926-982 | A task the scheduler has blocked in them has no pending wake-up, and is in a queue exactly if nobody is about to unpark it |
| WaitQueue.WaitQueues.Contains | src/kernel/wait_queue.c:19-37 | Answers exactly whether that task is queued |
| WaitQueue.WaitQueues.Enqueue | src/kernel/wait_queue.c:39-55 | Appends it exactly if it is not there yet, and leaves every other queue alone |
| WaitQueue.WaitQueues.Dequeue | src/kernel/wait_queue.c:57-73 | Takes the head, or none exactly if empty |
| WaitQueue.WaitQueues.Remove | src/kernel/wait_queue.c:75-102 | Takes it out wherever it is, keeping the order, exactly if it is there |
| SymbolLookup.GnuHash | user/linker/ld_main.c:373-378 | The loop computes 5381 times 33 to the length plus the bytes, each weighted by a power of 33, modulo 2^32 |
| SymbolLookup.ShiftedIs | user/linker/ld_main.c:397-400 | The shift of the Bloom filter divides by a power of two, rounding down |
| SymbolLookup.OnChain | user/linker/ld_main.c:381-421 | Every filed symbol passes the Bloom filter and lies on the chain of its bucket before the chain ends |
| SymbolLookup.LookupHash | user/linker/ld_main.c:381-421 | The hash lookup finds load base plus value of the first defined symbol of the name from the hashed part on, modulo 2^64, and 0 if there is none |
| SymbolLookup.Linker.Append | user/linker/ld_main.c:287-370 | Accepted exactly while fewer than 16 objects are loaded; one more object keeps every cached answer right |
| SymbolLookup.Linker.Lookup | user/linker/ld_main.c:423-450 | With its cache and over all loaded objects: load base plus value of the first such symbol in the first object in load order where that is not 0; 0 exactly if in every object it is 0 or there is none |
| SymbolLookup.OneAnswer | user/linker/ld_main.c:423-443 | That determines the answer |
| SymbolLookup.ScanPrefix | user/linker/ld_main.c:423-443 | A symbol once found resolves the same whatever is loaded later |
| Binding.Binder.BindNow | user/linker/ld_main.c:466-553 | Eager binding leaves in every resolvable slot the address of the first definition in load order plus the addend, modulo 2^64, and changes no other word |
| Binding.Binder.Resolve | user/linker/ld_main.c:122-177 | Lazy binding of one slot: succeeds exactly if the symbol resolves, writes the address of its first definition plus the addend to exactly that slot, and returns what it wrote |
| Binding.Binder.Run | user/linker/ld_main.c:122-177 | Over every order of first calls and later loads each called slot holds what eager binding would have written, each uncalled one its old word, and every other word is untouched |
| Binding.Binder.BiasSlots | user/linker/ld_main.c:537-550 | Before lazy binding every slot moves by the load bias modulo 2^64, and no other word changes |
| Binding.Binder.RunLazily | user/linker/ld_main.c:122-177 | From load on: each slot holds what eager binding would have written once it was called, and its stub moved by the load bias until then |
| Binding.Stable | user/linker/ld_main.c:122-177 | Loading more objects does not change what any resolvable slot binds to |
| ElfLoad.BoundsExact | src/kernel/process.c:487-537 | For every segment the loader accepts, its region lies in the image if and only if the file offset reaches back to the start of its page and the file part ends inside the image without wrapping |
| ElfLoad.FaultsStayInside | src/kernel/mmu_vmsa.c:1232-1250 | At any bias: no fault of an accepted segment reads outside the image, if and only if the part of the file its whole pages reach lies inside; at a page-aligned bias, if and only if its region does |
| ElfLoad.WrappedSumStrays | src/kernel/process.c:512-516 | An accepted, congruent segment whose offset and file size wrap round reads outside every image |
| ElfLoad.ShortOffsetStrays | src/kernel/process.c:524-537 | An accepted segment with its file part inside the image whose offset is less than its page offset reads outside it |
| ElfLoad.InOnePiece | src/kernel/process.c:487-537 | The region of an accepted segment does not wrap, lies between code base and heap limit, and holds the segment at its page offset |
| ElfLoad.SegmentFlags | src/kernel/process.c:158-172 | The flag word the code builds for a segment, branch by branch, decodes to the attributes modelled |
| ElfLoad.SegmentRights | src/kernel/process.c:158-172 | A segment's pages are the user's, writable exactly if its header says so, executable by the user exactly if its header says so and it is not writable, and never by the kernel |
| ElfLoad.SegmentByte | src/kernel/mmu_vmsa.c:1232-1250 | The byte a fault loads for a segment address is the file byte, or zero past the file part; zero also on a first page in front of the region, which a page-aligned bias rules out |
| ElfLoad.FrontKept | src/kernel/mmu_vmsa.c:1232-1250 | Every byte of a segment lies on a page that starts in its region, if and only if the bias is page-aligned or bias and address offset together pass a page boundary |
| ElfLoad.FirstPageLost | src/kernel/process.c:364-461 | The loader takes such a segment at the bias it chooses itself, and a fault on its first byte finds zero instead of the byte in the file |
| ElfLoad.LazyIsEager | src/kernel/process.c:712-839 | In a process the loader built, a fault on a segment address installs, for every byte of that page the segment holds, what an eager loader would have placed; user accessible, writable and executable exactly as the header says, bit 53 set; neither heap nor stack nor an earlier segment shadows it |
| FirstTouch.StackBlank | src/kernel/mmu_vmsa.c:1221-1289 | In a process the loader built, every stack address is filled with zeros the user may write and nobody may execute, even if the region table was full |
| FirstTouch.HeapBlank | src/kernel/mmu_vmsa.c:1221-1255 | So is every heap address, if the heap region found room |
| FirstTouch.NeverBoth | src/kernel/process.c:158-172 | No page of such a process is both writable and executable by the user, and none is executable by the kernel |
| FirstTouch.TouchBlank | src/kernel/mmu_vmsa.c:1215-1308 | Loader and fault handler together: after the first touch of stack or heap the page in memory is zero and its entry is user, writable, not executable |
| FirstTouch.TouchSegment | src/kernel/mmu_vmsa.c:1215-1308 | And after the first touch of a segment: the bytes of the file, zeros past them, and an entry with the rights of the header |
| ElfLoad.DisjointOnTop | src/kernel/process.c:712-839 | Segments on different pages are all on top, so the last result covers every one of them |
| ElfLoad.AllInBounds | src/kernel/process.c:712-839 | Every region of a built process stays in its image if and only if every segment does |
| ElfLoad.Process.AddRegion | src/kernel/process.c:463-485 | Appends exactly while there is room |
| ElfLoad.Process.MapSegment | src/kernel/process.c:487-537 | Skips what is not loadable; accepts exactly segments that are not both writable and executable and pass the 64-bit tests of image and address range, while there is room |
| ElfLoad.Process.MapObject | src/kernel/process.c:439-447 | All segments in order, succeeding exactly if each is acceptable and all fit |
| ElfLoad.Process.ChooseBias | src/kernel/process.c:270-298 | Exactly the bias, and the next base, for an image that fits and for one that does not; one that fits starts at or above the code base, and the bias is page-aligned exactly if the image starts on a page |
| ElfLoad.Process.Register | src/kernel/process.c:364-461 | Exactly when an object is taken in, at which bias, and where the next one starts; then all its segments are mapped there, the entry point is moved with it, every segment so far ends below the recorded end, and the bias is page-aligned exactly if it is 0 or the image starts on a page |
| ElfLoad.AllBelow | src/kernel/process.c:445-458 | The recorded end bounds every segment of the object, because its bounds do |
| ElfLoad.Process.Create | src/kernel/process.c:712-839 | Succeeds exactly if the program and then its interpreter, if it names one, can be registered, each at its own determined bias; then its regions are the segments of both in order, below heap and stack, and it starts at the entry of the interpreter or else of the program |
| ElfLoad.ImagesApart | src/kernel/process.c:270-298 | Two position-independent images in a row, from any base, are apart if and only if the first is at most 64 KiB long, or, where the second had to go to the code base, it ends below the first |
| ElfLoad.ImagesOverlap | src/kernel/process.c:364-461 | A program of 128 KiB and its interpreter are both accepted, and a fault on a byte of the program finds the interpreter there |
| ElfLoad.Process.Finish | src/kernel/process.c:801-828 | Heap one page above everything mapped, and stack and heap regions after the segments where they fit; the limit test here never fails, because registering already made it |
| ElfLoad.LoadBounds | src/kernel/process.c:219-268 | The least and the greatest address of the loadable segments, refused exactly if there is none, one is larger in the file than in memory, or one wraps around |
| BootMap.Build | src/kernel/mmu_boot.c:138-217 | Succeeds exactly if every page it needs is allocated, which is one for each 2 MiB of the kernel and two at least; then the tables are those described |
| BootMap.FillChunk | src/kernel/mmu_boot.c:188-203 | One fine-grained table, entry by entry |
| BootMap.IdentityMap | src/kernel/mmu_boot.c:138-217 | The walk of the boot tables gives exactly the identity on devices and RAM, leaves out the guard pages, and maps nothing else |
| BootMap.WriteXorExecute | src/kernel/mmu_boot.c:78-136 | No kernel page or block is both writable and executable, and only kernel text is executable |
| BootMap.ExactRights | src/kernel/mmu_boot.c:78-217 | The rights at each address: devices and data are written and not executed, text is executed and not written, read-only data neither, guard pages and what is beyond RAM are not mapped, and nothing is the user's |
| BootMap.BootFlags | src/kernel/mmu_boot.c:78-136 | The four flag words the code builds decode to the attributes the tables are proved with |
| BootMap.HighHalf | src/kernel/mmu_boot.c:219-227 | The same tables map the upper half to the same physical addresses |

## Left out

- Locks: each region under one lock is one step; the spinlock assembly and interrupt masking behind them are not modelled.
- TLB contents: invalidations are modelled as the protocol (`Shootdown`), not as what a stale entry would translate.
- Shootdown liveness: that handlers run at all, so that an initiator's wait ends.
- Tables as words: the tables hold decoded entries; `Descriptor`, `ElfLoad.SegmentFlags` and `BootMap.BootFlags` prove that the words the code builds decode to the entries the model stores.
- The byte loop that copies a page on a write fault is one assignment of the page's bytes; the loops of region fill and user copy are loops.
- The bodies of block split and merge: they are proved unreachable.
- Context handles: `kmalloc` for a context is a parameter (a handle, or 0), and a handle may be reused only after release.
- mmu_user_page_pa: it adds only a call of modelled members.
- Mmu.Mmu.MapUserPage: a page already mapped or not tracked is outside its precondition, because its one caller tracks a fresh page first.
- Mmu.Mmu.MergeScan: states only that a mergeable table is full, because that already shows the merge never follows an unmap.
- UserCopy.CopyPage: does not cover other regions between a fault and the retry; its termination and success condition are those of a copy that is not interfered with.
- UserCopy.CopyUserRange: does not state exactly when a range that must be faulted in page by page fails, because earlier pages use up memory for later ones; each page's condition is exact in `CopyPage`.
- Region: memory outside an image is a fixed parameter, so a stray read does not see later writes, and a stray read that would fault is not modelled.
- PageAlloc.PageAllocator.FreeContiguous: does not say what a scan past the page table (`Overruns`) does; reference counts are ignored and left behind, as the code does.
- Heap.Heap.Kmalloc: whether the page allocator grants an arena is a parameter.
- Heap.Heap.Kfree: does not cover an address inside an arena that is no payload, because the header the code would read there is arbitrary payload bytes.
- Heap.Heap.FindArena: the magic number is not modelled, because nothing in the model overwrites an arena header.
- ElfLoad.Process.Finish: does not state an error when the fixed region table is full, because the code ignores that result.
- ElfLoad.Process.Create: header parsing, file reading and the argument stack are left out; an object is its parsed headers and bytes.
- Scheduler.Scheduler.Run: stops at the first wait or exit by a caller already gone; what that call does is exact in `Wait` and `Exit`.
- Scheduler.Scheduler.Detach: does not model the circular list of tasks the reaper walks; any dead slot may be next, and a task off that list is known only by the record of what was reaped.
- Preemption counters, reschedule requests, interrupt depth, stacks and register contexts of the scheduler.
- Sync: a parked task is not killed and is woken only by the mutex or condition it waits on; detaching a dead task from its queues, the handle pools and semaphores are left out.
- Sync.StepInv: does not cover a step in which an idle task blocks, because it breaks the invariant, as `StepExact` shows.
- Sync.RunInv: does not cover runs in which an idle task blocks; `StepExact` shows these are exactly the steps that break the invariant.
- Ownership.ReturnsOwner: does not cover idle tasks that lock a held mutex; `Sync.IdleExact` does.
- SyncCode.Kernel.Run: covers the regions of mutexes and conditions and processor switches, with tasks alive throughout; ticks, exits and kills beside them are left out.
- WaitQueue.WaitQueues.Enqueue: does not cover a task on another queue, because the link field is shared and the callers never do it.
- Binding: relative and data relocations, entry sizes other than 24 bytes, and initialisers.
- Bloom filter words and processor masks are sets of bits.
- Process creation around the loader: argument stacks, `fork` and `execve` image ownership.
- Drivers, interrupt controller, timer, IPC, file systems, shell, user library and the debug printers: they would add only easy members or are input and output.
