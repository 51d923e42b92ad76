# Verification of virt-kernel's core

A Dafny model of the hard parts of virt-kernel, a small AArch64 kernel for a virtual
machine with one CPU: physical memory, copy-on-write address spaces, page tables, the
virtqueue under its 9p driver, locks and the scheduler, and the bookkeeping of files
and pipes. `dafny verify dfyconfig.toml` checks all of it.

| module | models | main results |
|---|---|---|
| Frames, Bits | vocabulary shared by the memory modules, bitwise operations on naturals | |
| BuddyModel, BuddyAllocator | src/pm.rs | the pages are always partitioned into aligned blocks; free blocks are maximal; alloc fails exactly when no aligned run is free; alloc then free is the identity |
| CowModel, AddressSpaces | src/sched.rs over src/pm.rs | copy-on-write fork refines a fork that copies at once, over every run; counts equal mappings |
| Descriptors, PageTable | src/vm.rs | the words in memory act as a flat map; table pages come from the buddy allocator; teardown frees each table once |
| HardwareWalk | the processor (VMSAv8-64) | the architecture's walk over the kernel's words, and what their bits allow |
| Machine, TaskMemory | src/sched.rs over src/vm.rs and src/pm.rs | flat mappings, table words, permissions and reference counts agree through spawn, fork, exec, brk, mmap, faults and exit; over every history the processor's walk reads what eager copying would give, runs only code, writes only unshared pages, and no block leaks |
| BitSet, Virtqueue | src/stuff.rs, src/virtio.rs, src/p9.rs | descriptor pairs, ring safety, each request's task woken exactly once, allocation never fails |
| Sched, TaskHistory | src/sched.rs, src/spin.rs | no run panics; locks pass across switches; no lost wakeup in wait and exit; over every run the kernel's view of parents, children and sleepers is that of the calls made |
| ByteStrings, ExecStack | src/sched.rs | the initial stack reads back as argc, argv, envp, auxv |
| Dirent | src/p9.rs | 9P2000.L entries become Linux dirents without loss |
| FileTable | src/fs.rs, src/pipe.rs, src/sched.rs | reference counts equal live descriptors |
| PipeRing | src/pipe.rs | the ring is a first-in first-out queue |

State that the kernel updates in place is modelled by classes over arrays, sequences
and maps (`Allocator`, `Kernel`, `PageTables`, `Machine`, `Tasks`, `Queue`, `Driver`,
`Table`, `Pipe`); their methods are proved against functions on values, and the laws
are lemmas about those. The scheduler is a step function over program counters, one per context, and
its theorems range over all runs from boot; what they say of parents, children and
channels is measured against a record read off the run (`Story`). What the outside world answers (the 9p
server, the virtio device, user programs) is a parameter.

Where the code does not do what one would expect, the model follows the code and a
lemma or contract says exactly when the expected property holds:

- `dup` and `free` accept interior pages of a block and then leave descriptors that no
  division of memory fits; the invariant survives exactly for block heads
  (`Allocator.Dup`, `Allocator.FreeInside`). All callers pass heads.
- mmap zeroes the new pages through the mapping it has just made for the user, and the
  write fault handler takes only copy-on-write frames, so a read-only mmap of at least
  one page panics (`Kernel.Grow`, `ReadOnlyMmap`).
- The loops over argv and envp stop at an empty string, while argc counts them all
  (`FaithfulIff`, `EmptyArgumentLost`), and the stack pointer is aligned to 8 only
  (`AlignedIff`, `MisalignedExample`).
- A pipe is marked full by an empty write to an empty pipe, which jams it, and never by
  filling it, so that a longer write overwrites unread bytes (`Pipe.Write`,
  `WriteTooMuch`, `WriteNothing`).
- `close` accepts one descriptor too many, which panics, and so does a server that
  refuses to clunk a 9p file's last descriptor, in `close`, `dup3`, `exit` and a failed
  open (`Table.Close`, `Table.Dup3`, `Table.Exit`, `Table.OpenAt`).

## Model

| member | source | states |
|---|---|---|
| `BuddyModel.Laminar` | src/pm.rs:315-331 | two naturally aligned blocks nest or are disjoint, whatever their orders |
| `Bits.XorPow2` | src/pm.rs:394-396 | bit-level XOR with a power of two adds it or takes it away, as the bit was clear or set |
| `BuddyModel.BuddyIsXor` | src/pm.rs:86-96 | for every aligned block, get_buddy's bitwise XOR of the address with 4096 << (8 - order), divided by 4096, is the index of the other half of the parent block |
| `BuddyModel.BuddyIsHead` | src/pm.rs:86-106 | in a partitioned memory the buddy index always heads a block, in bounds and of the same or a finer order, so join never acts on stale metadata |
| `BuddyModel.MergeState` | src/pm.rs:86-106 | merging two free buddies keeps the partition, the lists' contents, the coalescing and the set of live blocks |
| `BuddyModel.SplitState` | src/pm.rs:62-80 | splitting a free block keeps the same, with only the two halves uncoalesced |
| `BuddyModel.FreeRunInOneBlock` | src/pm.rs:86-106 | because free buddies never coexist, every free aligned run lies in a single free block |
| `BuddyModel.ListsEmptyIffNoRun` | src/pm.rs:333-375 | the lists that _alloc searches are all empty exactly when no aligned run of the required size is free |
| `BuddyModel.FreeHeadIffMaximal` | src/pm.rs:86-106 | the free blocks are exactly the maximal free aligned runs |
| `BuddyModel.RunIsRoom` | src/pm.rs:333-375 | a run is free in the page array exactly when it touches no live block |
| `BuddyModel.LiveDeterminesState` | src/pm.rs:425-437 | two sound states with the same live blocks have the same partition, free blocks and page metadata: the free structure is a function of the live blocks |
| `BuddyAllocator.OrdIsSmallest` | src/pm.rs:311-313 | get_ord yields the smallest block holding n bytes, for every 0 < n <= 1 MB |
| `BuddyAllocator.NoRoomMeans` | src/pm.rs:333-375 | that the model has no room for an order means that no address is aligned to the block size, inside RAM and free over the whole block |
| `BuddyAllocator.PlaceIsGood` | src/pm.rs:377-388 | a page index that the free lists yield is, as an address, an aligned place in RAM that no live block touches |
| `BuddyAllocator.AlignF` | src/pm.rs:15-17 | the least multiple of t that is not below n, for every n > 0 |
| `BuddyAllocator.AlignIsMask` | src/pm.rs:11-13 | on words of any width and for every power of two t, the mask with the complement of t - 1 is the greatest multiple of t that is not above n |
| `BuddyAllocator.Allocator.ListAdd` | src/pm.rs:197-201 | pushes a page on one free list and leaves the chains of all others intact |
| `BuddyAllocator.Allocator.ListRmFirst` | src/pm.rs:203-212 | pops the head of a list, None exactly when the list is empty |
| `BuddyAllocator.Allocator.ListFindPrev` | src/pm.rs:175-195 | the search finds the predecessor of every listed page, so unreachable!() is never reached |
| `BuddyAllocator.Allocator.ListRemove` | src/pm.rs:175-195 | removes exactly the given page from its list |
| `BuddyAllocator.Allocator.Join` | src/pm.rs:86-106 | restores the full invariant after a block became free, with the live blocks unchanged; the buddy is computed by get_buddy's XOR |
| `BuddyAllocator.Allocator.Split` | src/pm.rs:62-80 | halves a free block and lists the upper half |
| `BuddyAllocator.Allocator.SplitTo` | src/pm.rs:315-331 | splits down to the target order, keeping partition, lists and coalescing |
| `BuddyAllocator.Allocator.SetMids` | src/pm.rs:119-141 | mark_mids and unmark_mids rewrite exactly the interior pages of a block |
| `BuddyAllocator.Allocator.TakeBlock` | src/pm.rs:333-375 | _alloc takes a block of exactly the requested order off the lists, None exactly when those lists are empty |
| `BuddyAllocator.Allocator.Alloc` | src/pm.rs:377-388 | the address lies in RAM from 0x4000_0000 up to 0x8000_0000 and is a multiple of the block's size, the smallest power of two of pages that holds n; every address of the block was in use by nobody and belongs to it afterwards; the call fails exactly when n is 0 or over 1 MB, the allocator is uninitialised, or no such address exists; other blocks stay |
| `BuddyAllocator.Allocator.Dup` | src/pm.rs:410-423 | counts one more owner and marks the block Cow; on a head it keeps the invariant, on an interior page no division into blocks accounts for the descriptors any more |
| `BuddyAllocator.Allocator.CowAction` | src/pm.rs:445-462 | acts exactly on Cow blocks of the given length: Remap and clear the flag for the sole owner, otherwise one reference less and Alloc |
| `BuddyAllocator.Allocator.Free` | src/pm.rs:425-437 | drops one reference, and with the last one the block, coalescing as far as possible |
| `BuddyAllocator.Allocator.FreeInside` | src/pm.rs:425-437 | freeing any interior page that passes the asserts leaves descriptors that no division into blocks accounts for; the first interior page is listed as free besides |
| `BuddyAllocator.BrokenInside` | src/pm.rs:119-130 | whatever the change to an interior page's flag or distance, no ownership map fits the descriptors afterwards |
| `BuddyAllocator.Allocator.FreeSpan` | src/pm.rs:293-309 | freeing single pages one by one removes exactly them from the live blocks |
| `BuddyAllocator.Allocator.Init` | src/pm.rs:276-300 | from any content, exactly the addresses from the start of RAM up to the next page boundary at or above the kernel's end are in use, and all invariants hold |
| `BuddyAllocator.Allocator.FreeLow` | src/pm.rs:302-309 | the pages below the kernel become free as well |
| `BuddyAllocator.Allocator.AllocThenFree` | src/pm.rs:377-437 | freeing a just allocated block restores the partition, every free list's set of blocks and the metadata of every page, through any depth of split and join |
| `BuddyAllocator.Allocator.HeadsReachable` | src/pm.rs:119-149 | get_head of every interior page of a live block leads to its head, and no other page claims to be interior |
| `BuddyAllocator.Allocator.LiveHead` | src/pm.rs:398-437 | a live block's head page is in bounds, is not interior, has a positive count and records exactly the block's order, count and flags |
| `BuddyAllocator.Allocator.LookupMeans` | src/pm.rs:398-408 | an address leads to a descriptor exactly when it is in RAM, and to the page that holds it |
| `CowModel.ShareKeeps` | src/sched.rs:793-823 | cloning one page keeps: count equals number of mappings, a writable mapping has count one and a frame that is not flagged, every write-protected page of a writable region is Cow, and exactly the pages of segments that hold code can be run |
| `CowModel.DropKeeps` | src/sched.rs:1042-1053 | unmapping and freeing one block keeps it too, and frees the frame with the last mapping |
| `CowModel.UnshareKeeps` | src/sched.rs:1259-1300 | both outcomes of a write fault keep it, so the flag is gone once the sole owner writes again |
| `CowModel.SharePagesKeeps` | src/sched.rs:793-838 | cloning whole regions copies, as far as any task can read, exactly those pages, and touches no block outside user memory |
| `CowModel.DropPagesKeeps` | src/sched.rs:1042-1061 | freeing whole regions removes exactly those pages from the view and nothing else |
| `CowModel.StoreRefines` | src/sched.rs:1244-1302 | a store with its fault handling changes one byte of one page of one task, as in the eager specification |
| `CowModel.ForkRefines` | src/sched.rs:942-969 | a copy-on-write fork equals a fork that copies every page at once |
| `CowModel.StepRefines` | src/sched.rs:793-1302 | each of fork, store, mapping and unmapping refines its eager counterpart |
| `CowModel.RunRefines` | src/sched.rs:793-1302 | over every run, what each task reads equals a run of the eager specification, the sharing invariant holds throughout and blocks outside user memory are conserved |
| `CowModel.SegmentForEver` | src/sched.rs:793-823 | over every run from an empty memory, a page of a read-only segment stays mapped write-protected, however often it is shared, and can be run exactly if the segment holds code |
| `AddressSpaces.Kernel.Spawn` | src/sched.rs:294-308 | the stack of a new task; fails exactly when no two-page run is free, and then changes nothing |
| `AddressSpaces.Boot` | src/main.rs:37-49 | the start reaches a state satisfying all memory invariants, with the first task exactly when its stack fits |
| `AddressSpaces.Kernel.ClonePage` | src/sched.rs:793-823 | the loop body of clone_region on the real allocator, with the permissions of the region's flags, performs exactly the modelled sharing step |
| `AddressSpaces.Kernel.CloneRegion` | src/sched.rs:793-823 | the loop does so for every page of the region |
| `AddressSpaces.Kernel.CloneAll` | src/sched.rs:825-838 | all program regions, then brk and mmap, are cloned |
| `AddressSpaces.LayoutMarks` | src/sched.rs:793-806 | the flags of the region being cloned say, for each of its pages, whether it holds code |
| `AddressSpaces.FoundWhereItIs` | src/sched.rs:1231-1242 | find_region answers every page of a region with that region's permission |
| `AddressSpaces.Kernel.Fork` | src/sched.rs:942-969 | the child reads what an eager copy of the parent would hold, all other tasks as before; it fails exactly when no two-page run is free for the stack, and then changes nothing |
| `AddressSpaces.Kernel.FreeRegion` | src/sched.rs:1042-1053 | frees and unmaps each page of the region once |
| `AddressSpaces.Kernel.ExecFree` | src/sched.rs:456-462 | exec's teardown drops every region of the task but its stack and conserves foreign blocks |
| `AddressSpaces.Kernel.Exit` | src/sched.rs:1063-1087 | after exit no mapping of the task is left, every other mapping stays, and no frame is owned only by the dead task |
| `AddressSpaces.Kernel.MapPage` | src/sched.rs:669-713 | maps a fresh frame; it fails exactly when the page is mapped already or no frame is free |
| `AddressSpaces.Kernel.Grow` | src/sched.rs:668-787 | maps the pages, then zeroes them through the user's own mapping; once they are mapped it panics exactly for a read-only mmap of at least one page, and otherwise the new pages read as zeros and all else as before; mapping fails only with memory exhausted or a page of the range mapped already |
| `AddressSpaces.Kernel.ZeroPages` | src/sched.rs:784-786 | the fill reaches the zeroed state exactly when the pages are writable or there are none, and otherwise ends in a fatal fault at the first |
| `AddressSpaces.Kernel.LoadSegment` | src/sched.rs:464-519 | the segment's pages read as its image, write-protected unless the segment is writable, and to be run exactly if it holds code |
| `AddressSpaces.Kernel.Fault` | src/sched.rs:1244-1302 | resolves a write fault exactly on Cow frames of writable regions, and is otherwise fatal without change; it runs out of memory exactly when a copy is needed and no frame is free |
| `AddressSpaces.Kernel.Store` | src/sched.rs:1244-1302 | a store is refused exactly on unmapped pages and those of a read-only segment; otherwise it acts as on private memory |
| `AddressSpaces.Kernel.StoreCases` | src/sched.rs:1231-1302 | outside the read-only segments a mapped page is writable or the handler finds a copy-on-write frame |
| `AddressSpaces.ForkLayout` | src/sched.rs:942-969 | after fork both tasks' mappings still match their regions |
| `AddressSpaces.ReadOnlyMmap` | src/sched.rs:736-786 | such a call: a read-only mmap of one page, with a frame for it, panics while zeroing |
| `AddressSpaces.NoOrphans` | src/sched.rs:1063-1112 | every user frame is mapped by some live task |
| `Descriptors.WordSplits` | src/vm.rs:292-323 | for an aligned frame and permissions outside the mask, the OR of the two with 0x403 gives the frame back under PHY_MASK, and the rest is the permissions with the type bits |
| `Descriptors.MaskGivesFrame` | src/vm.rs:386-394 | masking any word gives the address of a page |
| `Descriptors.PermissionsOutsideMask` | src/vm.rs:21-60 | all sixteen permission constants lie outside PHY_MASK |
| `Descriptors.AttributeBits` | src/vm.rs:21-60 | by bit number: in a page descriptor of any permission constant bits 1:0 and 10 are set, bits 6 and 7 are AP, bit 53 is PXN and bit 54 UXN |
| `PageTable.LeafWordEntry` | src/vm.rs:292-323 | the stored leaf word reads as exactly the frame and attributes put in |
| `PageTable.RewrittenEntry` | src/sched.rs:433-445 | the callbacks that mask a word and set new permissions keep its frame and replace its attributes |
| `PageTable.PathInjective` | src/vm.rs:484-514 | two 48-bit addresses have the same four indices exactly when they are in the same page |
| `PageTable.SamePosSameTable` | src/vm.rs:185-211 | the tables form trees: no two tables sit at the same position |
| `PageTable.PageTables.NextTable` | src/vm.rs:185-211 | follows or inserts a zeroed table page from the allocator without changing any lookup; it fails only with no page free, and an existing table needs none |
| `PageTable.PageTables.NewRoot` | src/sched.rs:294-298 | a new root at which every lookup is empty, other address spaces unchanged |
| `PageTable.PageTables.MapPage` | src/vm.rs:292-323 | on the words in memory: changes the lookup of exactly that page in exactly that address space; a mapped page is reported and kept unless overwriting; fails only with no page free, and never where the tables exist |
| `PageTable.PageTables.WalkToLeaf` | src/vm.rs:359-384 | reaches the leaf table, an error exactly where a table is missing |
| `PageTable.PageTables.Translate` | src/vm.rs:386-394 | the frame of the page's lookup plus the offset, an error exactly where a table is missing; with permissions to set, exactly that page changes and keeps its frame |
| `PageTable.PageTables.Unmap` | src/vm.rs:402-409 | empties the lookup of exactly that page |
| `PageTable.PageTables.FreeTables` | src/vm.rs:417-447 | frees through the allocator, in order, the table pages of the address space and the frames still mapped in it; other address spaces read as before |
| `PageTable.FreedIffBelow` | src/vm.rs:417-441 | free_walk frees a page exactly when it is a table below its argument or a frame mapped below it |
| `PageTable.EmptyTeardown` | src/vm.rs:417-447 | once nothing is mapped, free_pt gives back exactly the tables of the address space, each once |
| `PageTable.FreedOnce` | src/vm.rs:417-441 | with nothing mapped no page is freed twice |
| `HardwareWalk.WordBits` | src/vm.rs:386-394 | a word apart from the address under the mask has the word's type, access, AP, PXN and UXN bits |
| `HardwareWalk.WalkIs` | src/vm.rs:185-323 | the processor's own walk over the words in memory, by the architecture's index bits and descriptor types, ends at a page descriptor exactly where the kernel's tables hold a page, and with its frame and attributes |
| `Machine.Machine.Spawn` | src/sched.rs:294-308 | root table, stack block and its two mapped pages from one allocator; afterwards the tables read as the flat mappings, and it fails only with no room left |
| `Machine.Machine.MapPage` | src/sched.rs:669-713 | the flat mapping and the table words agree on every page of every task before and after, in address and in the user's right to read, write and run; table pages added were free, and it fails only with no page free |
| `Machine.Machine.ClonePage` | src/sched.rs:793-823 | the parent's leaf loses its write permission in place, the child's tables gain the same frame, both readable by user code, not writable, and to be run exactly if the region is; counts, mappings and table words still agree |
| `Machine.Machine.Fault` | src/sched.rs:1244-1302 | a write fault on a page of a writable region is resolved, in the tables too, unless a copy is needed and no frame is free; it never asks for a table page, which could not be had with the allocator's lock taken |
| `Machine.Machine.FreePage` | src/sched.rs:1042-1053 | the address the table walk gives is the block freed, and exactly its pages are unmapped |
| `Machine.Machine.FreeBlocks` | src/sched.rs:1042-1061 | the loops free and unmap every block of the task in order |
| `Machine.Machine.FreeRoot` | src/vm.rs:417-447 | with no mapping left, exactly the task's table pages go back to the allocator |
| `Machine.Machine.Teardown` | src/sched.rs:1075-1094 | freeing all blocks of a task in any order and then its tables leaves exactly the old live blocks without its tables and the frames only it mapped; shared frames keep the other tasks' references, and every other mapping and table is as before |
| `Machine.LiveLeft` | src/sched.rs:1075-1094 | of the user frames exactly those some other task maps stay, each with as many references as it has other mappings |
| `Machine.SyncSet` | src/vm.rs:292-323 | one page changed in the tables and in the flat mappings keeps the two equal everywhere |
| `Machine.PermsAgree` | src/sched.rs:505-519 | a leaf written with PR_PW_UR_UW1, PR_UR_UX or PR_UR is a page that user code can read, and write or run as the mapping asks, and that the kernel cannot run |
| `TaskMemory.Tasks.Spawn` | src/sched.rs:294-326 | root table, stack and layout of a new task; the history grows by that one mapping, and it fails only with no room left |
| `TaskMemory.Tasks.Fork` | src/sched.rs:840-969 | the whole fork over regions, tables and allocator: the history grows by exactly one fork of the parent's pages, and the child's regions are the parent's |
| `TaskMemory.Tasks.ExecFree` | src/sched.rs:456-462 | exec's teardown over all regions, in flat mappings and tables alike |
| `TaskMemory.Tasks.LoadSegment` | src/sched.rs:464-519 | each page of a segment gets a frame and its tables; afterwards the view has exactly the image added and both layouts hold |
| `TaskMemory.Tasks.Store` | src/sched.rs:1244-1302 | a store through the tables is refused exactly on unmapped pages and read-only segments, and otherwise is one step of the history |
| `TaskMemory.Tasks.Exit` | src/sched.rs:1063-1094 | the whole free_task over regions and tables: live blocks are exactly the old ones without the task's tables and sole-owned frames |
| `TaskMemory.Tasks.WalkReadsEager` | src/sched.rs:793-1302 | in every history of spawn, fork, exec, brk, mmap, store and exit, what user code of any task reads when the processor walks the words of its tables, page by page and only where the descriptor lets user code read, is what it would hold had every fork copied all pages at once |
| `TaskMemory.Tasks.Permissions` | src/sched.rs:793-804 | in every history the processor finds a page descriptor at exactly the pages of a task's regions and the two at 8 GB of its stack; user code can read them all, run exactly those of its executable segments and write only to its writable regions and its stack, and the kernel can run none |
| `TaskMemory.Tasks.WritableAlone` | src/sched.rs:793-1302 | in every history a page that user code can write shares its address with no other page of any task, and no page of a task leads to a table |
| `TaskMemory.Tasks.StackRead` | src/sched.rs:521-620 | byte i of the stack block that execv_inner fills is what the task reads at the base address of the built stack plus i |
| `TaskMemory.Tasks.Grow` | src/sched.rs:668-787 | brk and a writable mmap over regions, tables and allocator: the new pages read as zeros, all else as before, and both layouts hold; fails only with no room left or a page mapped already |
| `TaskMemory.Tasks.Accounted` | src/sched.rs:1063-1094 | in every history each live block is one the kernel held at the start, a frame some living task maps, or a table of a living task, and only one of these: nothing leaks |
| `TaskMemory.WalkReadsView` | src/vm.rs:386-394 | where tables and flat mappings agree, the processor's walk reads the view, the stack's second page included |
| `BitSet.BitSet128.FirstClr` | src/stuff.rs:51-63 | the lowest clear bit, None exactly when all are set |
| `BitSet.BitSet128.SetNClr` | src/stuff.rs:66-84 | sets exactly the lowest run of n clear bits, None exactly when there is none |
| `BitSet.Window.Alloc` | src/vm.rs:552-565 | hands out n adjacent unused window pages; fails exactly when n > 4 or no such run exists |
| `BitSet.Window.AllocThenFree` | src/vm.rs:552-589 | freeing a one-page window restores the bitmap |
| `Virtqueue.Slots` | src/virtio.rs:421-434 | with 16-bit wrapping indices, positions fewer than 32 apart use different slots |
| `Virtqueue.RingPush` | src/virtio.rs:476-482 | a write to a ring that is not full overwrites no unread entry |
| `Virtqueue.LowestIsPair` | src/stuff.rs:51-63 | the lowest clear descriptor is always the even one of a free pair |
| `Virtqueue.Queue.AllocDesc` | src/virtio.rs:396-406 | takes the lowest clear descriptor and clears its data |
| `Virtqueue.Queue.AllocPair` | src/p9.rs:600-601 | two allocations in a row give 2k and 2k+1; they fail exactly with sixteen requests in flight |
| `Virtqueue.Queue.Submit` | src/p9.rs:600-617 | the request gets a pair of its own; read as a descriptor chain it is the request's readable buffer followed by its device-writable one, each with its address and length; its channel is stored, no other request's data changes, and it fails exactly with sixteen requests in flight |
| `Virtqueue.CarriesAdd` | src/virtio.rs:276-308 | one more chain leaves every chain in flight carrying its own request |
| `Virtqueue.Queue.AddAvail` | src/virtio.rs:476-482 | appends to the avail ring |
| `Virtqueue.Queue.DevTake` | src/virtio.rs:321-340 | the device takes requests in order and finds each one's own two buffers, nothing unread is lost |
| `Virtqueue.Queue.DevComplete` | src/virtio.rs:342-372 | the device completes in any order, nothing unread is overwritten |
| `Virtqueue.Queue.FreeDesc` | src/virtio.rs:408-419 | neither assert fires, and exactly the chain's two bits are cleared although flags are never cleared |
| `Virtqueue.Queue.PeekUsed` | src/virtio.rs:427-434 | the oldest completion and the data stored with it, None exactly when there is none |
| `Virtqueue.Queue.PopUsed` | src/virtio.rs:421-425 | frees the oldest completion's chain and no other |
| `Virtqueue.OnePerTask` | src/p9.rs:863-886 | requests of n different tasks are at most n |
| `Virtqueue.Driver.Room` | src/p9.rs:863-886 | never more than eight requests are in flight |
| `Virtqueue.Driver.Request` | src/p9.rs:863-886 | the descriptor allocation never fails; the chain carries the task's request, and the task sleeps on its own channel |
| `Virtqueue.Driver.DeviceTakes` | src/virtio.rs:321-340 | device activity leaves every sleeping task matched to its own request |
| `Virtqueue.Driver.DeviceCompletes` | src/virtio.rs:342-372 | so does completion, in any order |
| `Virtqueue.MatchedRemove` | src/p9.rs:1700-1718 | waking a completed request's channel wakes its owner and nobody else |
| `Virtqueue.HandleWakes` | src/p9.rs:1700-1718 | handling a sequence of completions wakes exactly their owners, each exactly once |
| `Virtqueue.Driver.HandleIrq` | src/p9.rs:1700-1718 | the interrupt handler empties the used ring and wakes exactly the tasks whose requests were in it, once each; woken equals issued except while asleep |
| `Sched.AcquireKeeps` | src/spin.rs:28-44 | acquire never panics and counts the lock, wherever the invariant holds |
| `Sched.ReleaseKeeps` | src/spin.rs:46-60 | release's assert holds and the count goes down |
| `Sched.SwitchKeeps` | src/sched.rs:1387-1399 | sched's asserts hold and the task's lock passes to the scheduler |
| `Sched.DispatchKeeps` | src/sched.rs:1356-1385 | a Ready task can always be resumed and takes over its own lock |
| `Sched.RouseKeeps` | src/sched.rs:1340-1354 | waking keeps the invariant and leaves the task not asleep on that channel |
| `Sched.ZombieKeeps` | src/sched.rs:1096-1112 | a task becomes a zombie only with its parent not asleep in wait |
| `Sched.ReapKeeps` | src/sched.rs:1181-1216 | the step of wait that frees a slot keeps the invariant: the slot's task has switched away for good |
| `Sched.StepKeeps` | src/sched.rs:1314-1408 | no step of any context panics, and every step keeps the invariant |
| `Sched.RunSafe` | src/sched.rs:1096-1408 | over every run from boot, no lock is taken twice or released unheld and none of sched's asserts fires |
| `Sched.RunLocks` | src/sched.rs:38-52 | in every reachable state int_disables is the number of held locks, a Running task has the CPU, and a Free slot belongs to no task |
| `Sched.RunSwitch` | src/sched.rs:1356-1399 | every switch, in either direction, happens with exactly the switched task's lock held and int_disables at one |
| `Sched.RunNoLostWakeup` | src/sched.rs:1181-1216 | in every reachable state no task asleep in wait has a zombie child |
| `Sched.RunWaitAnswer` | src/sched.rs:1181-1216 | wait reports no child only if no slot names the caller as parent, and the slot it frees belongs to no context |
| `Sched.RunWakeExact` | src/sched.rs:1340-1354 | a sleeping task leaves its sleep exactly in a step that wakes the channel it sleeps on |
| `Sched.RunWakeupComplete` | src/sched.rs:1340-1354 | in every run, when a wakeup by a device holder, an interrupt handler or exit has gone through all tasks, nobody sleeps on its channel |
| `TaskHistory.RunRecorded` | src/sched.rs:1096-1408 | over every run from boot the kernel's slots, parents and channels agree with a record kept of the calls made and who forked whom |
| `TaskHistory.RunFamily` | src/sched.rs:993-995 | in every run a slot's parent is the task whose fork took the slot last, once linked; the slot is free exactly while no fork has taken it and a zombie exactly from exit until it is collected |
| `TaskHistory.RunReaps` | src/sched.rs:1181-1216 | a step of wait that collects slot c starts with c taken by a fork of the caller and exited, and leaves it unused |
| `TaskHistory.RunWaits` | src/sched.rs:1181-1216 | wait answers with the slot it collected since it was called, and with none only if the caller has no child, living or dead |
| `TaskHistory.RunNoLostChild` | src/sched.rs:1181-1216 | in every run a task asleep in wait has no child that has exited |
| `TaskHistory.RunForks` | src/sched.rs:1439-1454 | fork takes the lowest unused slot for a child of the caller and gives up only when all are taken |
| `TaskHistory.RunSleeps` | src/sched.rs:1314-1325 | a sleeping task sleeps on the channel it asked for, and every task is inside the call it made |
| `TaskHistory.RunWakes` | src/sched.rs:1340-1354 | a sleeping task leaves its sleep exactly in the step of a wakeup that reaches its slot, if the channel woken is the one it went to sleep on |
| `TaskHistory.RunWakesAll` | src/sched.rs:1340-1354 | once a wakeup has gone through the slots nobody sleeps on the channel woken |
| `TaskHistory.RunLooks` | src/sched.rs:1356-1385 | the scheduler's loop passes no slot, and a slot that is ready when looked at runs next |
| `ByteStrings.WordRoundTrip` | src/sched.rs:596-613 | a little-endian word reads back as its value |
| `ByteStrings.CStrRead` | src/sched.rs:535-566 | a placed NUL-free string reads back as itself |
| `ExecStack.PutStrings` | src/sched.rs:534-566 | places every string after the last empty one, inside its area, in order and without overlap; fails exactly when they do not fit |
| `ExecStack.PutAux` | src/sched.rs:573-594 | AT_RANDOM and AT_NULL below the strings; fails exactly without room for both |
| `ExecStack.PutTable` | src/sched.rs:596-613 | argc and the pointers in popped order, nothing above touched |
| `ExecStack.DecodeBuilt` | src/sched.rs:521-620 | the words read back as argc, both pointer tables and the auxiliary vector |
| `ExecStack.BuildStack` | src/sched.rs:521-620 | succeeds exactly when everything fits; then sp lies in the 8 KB at 8 GB, and decoding from it gives argc, argv, envp and auxv in order, the argument block ends at the auxv, the auxv ends below the strings, every string with its terminator lies in its area below the random bytes, no two overlap, and the 16 random bytes are untouched |
| `ExecStack.FaithfulIff` | src/sched.rs:534-566 | what is decoded is the caller's argv and envp exactly when no string is empty |
| `ExecStack.EmptyArgumentLost` | src/sched.rs:552-556 | an empty argument loses everything before it while argc still counts it |
| `ExecStack.AlignedIff` | src/sched.rs:573-604 | sp is always a multiple of 8, and of 16 exactly when the number of strings plus their total size with terminators in 8-byte words, rounded up, is odd |
| `ExecStack.MisalignedExample` | src/sched.rs:573-604 | one short argument gives a stack pointer the ABI does not allow |
| `Dirent.ParseDents` | src/p9.rs:1836-1848 | reading the produced dirents recovers inode, type and name of every entry, in order, each with the offset the directory was read from |
| `Dirent.Sizes` | src/p9.rs:1825-1853 | every record is four bytes shorter than its source, so output never outruns input |
| `Dirent.Transcode` | src/p9.rs:1825-1853 | one entry is consumed and its dirent produced; the 16-bit record length does not overflow |
| `Dirent.Getdents` | src/p9.rs:1813-1858 | the buffer holds exactly one dirent per entry, the count is the sum of the record lengths, the offset the last entry's; errors change nothing |
| `FileTable.CloseOk` | src/fs.rs:100-145 | closing a live descriptor never underflows; it panics exactly for the last descriptor of a 9p file the server will not clunk |
| `FileTable.DupOk` | src/fs.rs:184-196 | duplicating keeps every count equal to the live descriptors |
| `FileTable.PipeSum` | src/pipe.rs:254-283 | a pipe's readers and writers add up to its reference count |
| `FileTable.CountsLive` | src/fs.rs:100-145 | rc is the number of live descriptors naming the file, for every file, and an unused slot is named by none |
| `FileTable.CountBound` | src/fs.rs:100-145 | the 16-bit rc cannot overflow |
| `FileTable.Table.OpenAt` | src/fs.rs:915-958 | the lowest free descriptor gets a 9p file in the lowest unused slot, which no descriptor names; fails exactly with the server refusing, no descriptor or none of the 128 slots left, and then changes nothing; panics exactly when the server then refuses the clunk as well |
| `FileTable.Table.OpenConsole` | src/sched.rs:1467-1486 | the console file goes into the lowest unused slot, which no descriptor names |
| `FileTable.Table.Pipe2` | src/pipe.rs:285-313 | one pipe file in the lowest unused slot with the two lowest free descriptors, the first reading, the second writing; panics exactly with a slot but fewer than two free descriptors |
| `FileTable.Table.Dup3` | src/fs.rs:1113-1142 | the new descriptor names the old one's file, and what it named before is closed: its slot is vacated exactly with the last descriptor of a 9p file and every other slot keeps its kind; panics exactly for descriptors outside the table or a close that fails |
| `FileTable.Table.Close` | src/fs.rs:1080-1111 | only that descriptor goes; the slot becomes reusable exactly with the last descriptor of a 9p file; panics exactly for index 8 or a refused last clunk |
| `FileTable.Table.Fork` | src/sched.rs:975-979 | the child's table is a copy of the parent's and every copy is counted |
| `FileTable.Table.Exit` | src/sched.rs:1063-1073 | all descriptors of the task go and the other tasks keep theirs; panics exactly when some descriptor, closed in order, is the last one of a 9p file the server will not clunk |
| `PipeRing.Counter` | src/pipe.rs:38-44 | unreduced wrapping counters step through the slots |
| `PipeRing.Pipe.Store` | src/pipe.rs:46-73 | the bytes go to the free slots after the write position, split at the end of the buffer, and nowhere else |
| `PipeRing.Pipe.Push` | src/pipe.rs:104-136 | write_inner on any pipe: unless marked full it takes bytes up to the next multiple of the buffer size, and it marks the pipe full only with both positions equal |
| `PipeRing.Pipe.WriteInner` | src/pipe.rs:104-136 | appends what fits to the queue; keeps the pipe a queue exactly when it is neither empty with nothing to write nor full with something to write |
| `PipeRing.Pipe.Write` | src/pipe.rs:138-172 | a whole write with a reader never waits; it delivers q + b exactly when that is not empty and fits the buffer, and otherwise leaves no queue; it returns the length of its last transfer |
| `PipeRing.WriteTooMuch` | src/pipe.rs:138-172 | one byte more than the buffer on an empty pipe leaves no queue and returns 1 |
| `PipeRing.WriteNothing` | src/pipe.rs:138-172 | an empty write to an empty pipe jams it: nothing can be written or read any more |
| `PipeRing.Pipe.Fetch` | src/pipe.rs:75-102 | copies out the oldest bytes across the end of the buffer |
| `PipeRing.Pipe.ReadInner` | src/pipe.rs:174-206 | takes exactly the oldest bytes, as many as there are or fit, and empty tells an empty queue; a jammed pipe stays jammed |

## Left out

- Assembly, trap entry, interrupt controller, UART, RTC, timers, TLB and barrier instructions, and register contents across `switch`: hardware.
- `int_enable`: only the nesting counter of `disable_intr` and `enable_intr` is modelled.
- `Wq` queues, `sleep_if` and `ppoll`: tasks sleep on channels only.
- Sched steps of leaf locks that are taken and released without a sleep or wakeup in between (allocator, heap, console) are not separate steps.
- Sched.RunSafe: `exit` of task 0, which panics on purpose, is not a step of a run.
- The blocking loop of `Pipe::read`, and `Pipe::write` on a pipe that is marked full already, where it sleeps.
- AddressSpaces.Kernel.Spawn: flat mappings only; the root table and its failure are in Machine.Machine.Spawn.
- AddressSpaces.Kernel.Fork: the search for a task slot and table pages are not part of its failure condition; table pages are in TaskMemory.Tasks.Fork.
- AddressSpaces.Kernel.MapPage: flat mappings only; table pages are in Machine.Machine.MapPage.
- AddressSpaces.Kernel.Grow: the argument checks and ten-megabyte limits of brk and mmap are not modelled.
- AddressSpaces.Boot: the kernel's own stacks, tables and heap, taken before the first task, are not modelled.
- Machine.Machine.MapPage: exec maps a segment's pages for the kernel alone, fills them, and then sets their permissions with `map_chg_perms`; the model enters them with the final ones.
- Machine.Machine.Teardown: is given the task's blocks; the walk over the regions that finds them is TaskMemory.Tasks.Exit.
- TaskMemory.Tasks.LoadSegment: addresses of 48 bits are asked of the caller, and the ELF headers and the file are not modelled.
- TaskMemory.Tasks.Grow: addresses of 48 bits are asked of the caller; a read-only mmap, which panics, is modelled over flat mappings only (AddressSpaces.Kernel.Grow).
- TaskHistory.RunFamily: a parent is a task slot, as in the code, where children outlive their parent without being handed on; after the slot is reused they count as children of the task now in it.
- PageTable.PageTables.NextTable: the kernel window through which table pages are written (`PmWrap`) is the separate BitSet.Window; running out of it is not part of this contract.
- AddressSpaces.Kernel.LoadSegment: the ELF header checks and the reading of the file are not modelled; the segment's bytes are a parameter.
- PageTable.PageTables.FreeTables: asks that no mapped frame is itself a table page and that every page freed is live with a count, which `pm::free` asserts.
- Block mappings of 1 GB and 2 MB for the kernel's own address space.
- Virtqueue.Queue.Submit: addresses and lengths of the two buffers are parameters; message contents, tags and fids are not modelled.
- Virtqueue.Driver.Request: that live messages have different addresses is asked of the caller, a message being a local on its task's kernel stack while the task sleeps.
- ExecStack.BuildStack: strings without NUL bytes are asked of the caller, as C strings are.
- Dirent.Getdents: the payload is asked to be a sequence of whole entries within the buffer; `d_off` is the offset the directory was read from, for every record, as in the code.
- Reusing console and pipe slots, which `File::close` never clears, and file offsets, paths and data.
- 9p fid conservation, `blk.rs`, `rng.rs`, `tty.rs`, `cons.rs`, system call dispatch, paths and the heap crate.
