# Origin-OS-x86: a verified model

This project models the parts of the kernel that keep state in agreement across many operations, and proves
what they promise: the memory manager, the scheduler with its semaphores and locks, the disk handshake, the
inode table, partition formatting, and the keyboard queue.  An `ASSERT` of the kernel is a test in the model
whose failure has an outcome of its own (`Panic`, `Halted`, `AssertFailed`, `false`, `None`), so that "no
assertion fires" is a statement that can be proved.

`dafny verify dfyconfig.toml` checks everything.

## What is in the files

Memory, from the bottom up:

- `Bitmap.dfy`, `IntrusiveList.dfy`: the byte-array bitmap with its search loops, and the doubly linked list
  with head and tail nodes, both on the heap and updated in place.
- `Paging.dfy`: physical memory as words, the two-level walk of the processor (section 4.3, "32-Bit Paging",
  of the Intel SDM volume 3A), and the accesses of the kernel through the directory entry that maps the
  directory onto itself.
- `PageModel.dfy`, `PageSteps.dfy`, `FrameCount.dfy`, `PageManager.dfy`: pools of frames, bitmaps of virtual pages and
  page tables, the *agreement* between the three, how many frames a request takes, and `malloc_page`, `get_a_page` and
  `mfree_page` that keep the agreement.  `Races.dfy`: what becomes of a request that another overtakes.
- `MemoryInit.dfy`: the state that the loader and `mem_pool_init` set up.  `Process.dfy`: the directory and the
  window of addresses of a new process.
- `HeapModel.dfy`, `HeapSteps.dfy`, `HeapPages.dfy`, `Heap.dfy`: arenas, size classes and free lists, their
  invariant, and `sys_malloc` and `sys_free` on top of the page manager.  `KernelHeap.dfy`: the heap of the kernel
  at its beginning, and others who take pages beside a heap.
- `Spaces.dfy`, `Turns.dfy`, `HeapTurns.dfy`, `Memory.dfy`: any number of address spaces that share the kernel half,
  one of them in use, with the heap of the kernel and the heaps of the processes.

The agreement is stated for the address space in use.  `Shape.reserved` holds the frames that this address space does
not map: its page tables, and what other address spaces use.  `PageSteps.Steady` says that no operation adds anything to
it but page tables, so a set bit of a pool always has an owner (`PageSteps.BitMeans`).  `Spaces.NeighbourKept` says that
whatever the space in use maps or unmaps, every other space stays in agreement.

A heap is never alone on its window: `thread_start` takes kernel pages, and a process has its stack.  So a heap
carries a *base*: the translations, bitmaps and pools as they would be without it.  Its own operations leave the base
as it is, a step of others moves the base along (`HeapPages.SettledRely`), and when all pointers are back the pages are
those of the base (`Heap.Heap.AllReturned`).

Threads:

- `Scheduler.dfy`: ready list, task states and time slices, as functions and as a class.
- `Kernel.dfy`: a preemptive step system in which a thread is a program counter over the steps of `sema_down`,
  `sema_up`, `lock_acquire`, `lock_release` and the command protocol of the disk; interrupts come between any
  two steps taken with interrupts on.  `KernelProofs.dfy` shows that every step keeps the invariant,
  `KernelRuns.dfy` draws the conclusions for all runs, and `Machine.dfy` holds the same steps as methods that
  update fields.
- `TagLists.dfy`: the same queues in memory: one tag for each thread, the ready list and the waiters of every
  semaphore as linked lists that share no node, and all operations of the scheduler and the semaphores as changes of
  links.  `TagRuns.dfy`: every step of the kernel on the links, and whole runs.

Storage and input:

- `Disk.dfy`: transfers between a buffer and the disk.
- `InodeTable.dfy`, `OpenInodes.dfy`: inode records, their places, and the list of open inodes.
- `PartitionFormat.dfy`, `Format.dfy`: layout and block bitmap of a new partition, and all that formatting writes.
- `IoQueue.dfy`: the ring buffer between the keyboard interrupt and one reader.

## What the code does that one might not expect

These facts of the code are stated as they are, with the exact condition under which the expected property holds
and, where plain values show it, a lemma at an input on which it fails.

- A search for several bits runs over the bit behind the bitmap (`Bitmap.GuardMatters`, `Bitmap.RunAtGuard`; input:
  `Bitmap.GuardRun`).  The user window of a process ends at 0xc0000000, and the page behind it is a page of the kernel.
  A run that the guard bit completes there is claimed and mapped up to that page, where `page_table_add` stops at its
  assertion (`PageSteps.MapStopsBeyond`, `PageManager.PageManager.MapAll`).  Once the stack is in place, as it is in a
  process that runs, no such run is found (`Process.StackGuards`, `Memory.Memory.StackGuarded`).
- `get_kernel_pages` takes no lock.  A request whose search has been overtaken by another stops at an assertion exactly
  if the two runs meet (`Races.PageRace`); one that is overtaken between the search for a frame and its claim maps the
  frame a second time (`Races.FrameRace`).
- `thread_start` walks the ready list with interrupts on.  From the tag it stands on the links lead to the end of the
  ready list exactly if the thread is ready; from a thread that has come to wait meanwhile they lead past the end of the
  waiters to NULL (`TagRuns.WalkOn`).
- A full bitmap stops at an assertion, so `palloc` never returns NULL and `malloc_page` returns NULL only when
  nothing has been changed (`PageManager.PageManager.MallocPage`).
- `sys_malloc` accepts sizes for which `malloc_page` then stops at an assertion (`Heap.Heap.SysMalloc`; input:
  `KernelHeap.LargestRequest`).
- The loader clears the page directory but not the page tables behind the first one.  The state after `mem_pool_init`
  is in agreement exactly if the table words of the kernel heap are not present (`MemoryInit.BootAgreement`).
- The boot directory uses one table for its entries 0 and 768, so mapping a page there maps a second address
  (`MemoryInit.BootAlias`); a new table also opens a page of the window onto the tables
  (`Paging.AddTableTranslates`).
- With less than the 2 MiB that the kernel takes before, the pools lie outside the memory (`MemoryInit.PoolsInMemory`;
  input: `MemoryInit.TooLittleMemory`).  `mem_init` always passes 32 MiB.
- `inode_sync` narrows the inode number to a byte (`InodeTable.SyncedSlot`, `InodeTable.SyncNumbers`; input:
  `InodeTable.LostInode`), so what it writes is what a later `inode_open` reads exactly below 256 or where the slot
  held the same (`OpenInodes.Partition.SyncOpen`).
- The sizes of `partition_format` wrap around for partitions below 611 sectors and for the very largest
  (`PartitionFormat.PlanFits`; input: `PartitionFormat.TooSmall`); with 1 to 7 data bits bit 0 is not set
  (`PartitionFormat.BitmapRight`; input: `PartitionFormat.OneBit`); the inode table is counted twice, so the last bits
  stand for sectors behind the partition (`PartitionFormat.BitsBehind`; input: `PartitionFormat.SectorBehind`); and
  the buffer can be one sector short (`PartitionFormat.BufferHolds`; input: `PartitionFormat.ShortBuffer`).
- The sector of the super block is a sum in 32 bits, so that a partition that starts at the last sector number is
  formatted from sector 0 on (`Format.Format`).
- After formatting only slot 0 of the inode table holds its own number (`Format.FormattedSlots`), so opening any other
  inode puts a node under the wrong number on the list (`OpenInodes.Partition.Open`).

## Model

| member | source | states |
|---|---|---|
| Bitmap.ByteMap.Init | lib/kernel/bitmap.c:10-12 | all bits of the bitmap become clear and the byte behind it is untouched |
| Bitmap.ByteMap.Test | lib/kernel/bitmap.c:14-20 | the answer is the bit of the abstract row of bits |
| Bitmap.ByteMap.Set | lib/kernel/bitmap.c:66-76 | exactly one bit of the abstract row changes |
| Bitmap.SetByteBits | lib/kernel/bitmap.c:66-76 | setting or clearing a mask in a byte is the update of one bit of the row |
| Bitmap.ByteMap.ScanFor | lib/kernel/bitmap.c:23-64 | the three loops compute the declarative search `Scan`: assertion on a full bitmap, the lowest clear bit for a count of one, the lowest run over bitmap and guard bit for more |
| Bitmap.ByteMap.ScanRun | lib/kernel/bitmap.c:43-63 | from the first clear bit on, the counting loop finds the lowest run, or reports that there is none |
| Bitmap.LowestRun | lib/kernel/bitmap.c:23-64 | the run found is clear, no earlier start works, and no result means that no run exists |
| Bitmap.GuardMatters | lib/kernel/bitmap.c:43-61 | the search agrees with a search inside the bitmap if and only if the guard bit does not complete the first run |
| Bitmap.RunAtGuard | lib/kernel/bitmap.c:43-61 | the search finds a run that reaches behind the bitmap if and only if the guard bit is clear, the bits before it are, and no run lies inside |
| Bitmap.GuardRun | lib/kernel/bitmap.c:43-61 | eight bits of which only the last is clear, and a clear guard bit: a search for two finds bit 7 |
| Bitmap.ScanFound | lib/kernel/bitmap.c:23-64 | what is found is clear and, for one bit, inside the bitmap |
| Bitmap.ByteMap.Claim | kernel/memory.c:55-82 | search and setting loop set exactly the bits found, which were clear before, and change nothing on failure |
| IntrusiveList.List.constructor | lib/kernel/list.c:4-9 | an empty well-formed list |
| IntrusiveList.List.InsertAt | lib/kernel/list.c:11-20 | insertion before a node is insertion into the sequence at that place |
| IntrusiveList.List.Push | lib/kernel/list.c:22-24 | the element comes first, the rest stays in order |
| IntrusiveList.List.Append | lib/kernel/list.c:26-28 | the element comes last, the rest stays in order |
| IntrusiveList.List.Remove | lib/kernel/list.c:30-37 | exactly the element at its place leaves the sequence |
| IntrusiveList.List.Pop | lib/kernel/list.c:39-43 | the first element of a non-empty list leaves |
| IntrusiveList.List.Empty | lib/kernel/list.c:80-82 | true iff the sequence is empty |
| IntrusiveList.List.Find | lib/kernel/list.c:45-54 | the walk ends and answers membership |
| IntrusiveList.List.Traverse | lib/kernel/list.c:56-68 | the first element that satisfies the callback, or null if none does |
| IntrusiveList.List.Len | lib/kernel/list.c:70-78 | the walk ends and counts the elements |
| Paging.PtrIndices | kernel/memory.c:85-94 | directory index, table index and offset of the addresses that `pte_ptr` and `pde_ptr` compute |
| Paging.WindowOntoTables | kernel/memory.c:85-94 | the walk of `pde_ptr(v)` ends at the directory entry of `v`, and that of `pte_ptr(v)` at its table entry iff the table is present |
| Paging.AddrV2PIsWalk | kernel/memory.c:209-212 | `addr_v2p` is the translation of every mapped address |
| Paging.AddEffect | kernel/memory.c:97-121 | with the table there, `page_table_add` stops iff the entry is present and otherwise writes exactly that entry |
| Paging.AddTableEffect | kernel/memory.c:97-121 | with a new table, the directory entry, the zeroed table and the new entry are all that is written |
| Paging.AddTranslates | kernel/memory.c:97-121 | an address translates differently afterwards iff it shares the entry of `v`, and then to the frame |
| Paging.AddTableTranslates | kernel/memory.c:97-121 | with a new table, the page of `v` and the window page onto the table are mapped, and no other translation changes |
| Paging.RemoveTranslates | kernel/memory.c:413-417 | exactly the addresses that share the entry of `v` lose their translation |
| PageModel.SlotUnique | kernel/memory.c:85-94 | two pages of the windows of virtual addresses never share a table entry |
| PageModel.MapTranslates | kernel/memory.c:97-121 | under the agreement, mapping a window page changes the translation of that page alone among all window pages |
| PageModel.MapTableTranslates | kernel/memory.c:97-121 | the same when a table has to be made |
| PageModel.UnmapTranslates | kernel/memory.c:413-417 | under the agreement, unmapping a window page changes no other window page |
| PageModel.PoolMap | kernel/memory.c:41-52 | taking a free frame for a page keeps "set iff mapped or reserved" and distinct frames |
| PageModel.PoolUnmap | kernel/memory.c:400-410 | giving back the frame of a page keeps them |
| PageSteps.PallocFresh | kernel/memory.c:41-52 | a frame from `palloc` is aligned, in its pool, and used for nothing |
| PageSteps.PallocCounts | kernel/memory.c:41-52 | `palloc` stops iff no frame is free, and otherwise takes one |
| PageSteps.TableMade | kernel/memory.c:97-121 | the frame that `page_table_add` took for a table is the base of a present directory entry afterwards |
| PageSteps.BitMeans | kernel/memory.c:41-52 | a bit of a pool is set if and only if its frame is mapped, holds a page table, or is in use by the others that the state began with |
| PageSteps.SteadyTrans | kernel/memory.c:97-121 | over any number of operations the directory keeps its tables, and every frame set aside since is a page table |
| PageSteps.MapStepKeeps | kernel/memory.c:139-150 | one turn of the loop stops iff a pool is exhausted; otherwise the next claimed page gets a fresh frame, the agreement holds, and the only frame set aside is that of a new table |
| PageSteps.MapStopsBeyond | kernel/memory.c:139-150 | at a guard page that belongs to the kernel the turn stops at an assertion |
| FrameCount.MissingStep | kernel/memory.c:97-121 | mapping a page takes its directory entry, and no other, from those that lack a table |
| FrameCount.ShortStep | kernel/memory.c:139-150 | one turn of the loop stops only if the frames are too few for the rest of the run and the tables it lacks, takes one frame for the page and one for a table it makes, and leaves what is too few so and what is enough so |
| PageSteps.UnmapStepKeeps | kernel/memory.c:447-466 | one turn passes its assertions, unmaps the page, clears the bit of its frame and keeps the agreement, for every page but that of the directory in use |
| PageSteps.PfreeToOwner | kernel/memory.c:400-410 | the address comparison picks the pool that the frame of a mapped page came from |
| PageSteps.ClaimKeeps | kernel/memory.c:55-82 | bits found clear stand for pages that are not mapped, but for a guard bit whose page is in use, and claiming them keeps the agreement |
| PageSteps.ReleaseKeeps | kernel/memory.c:419-435 | clearing the bits of unmapped pages completes the agreement |
| PageSteps.DataStoresAreHarmless | kernel/memory.c:126-152 | whatever is stored in a mapped page, no translation of any address changes and the agreement holds, for every page but that of the directory in use |
| PageManager.PageManager.VaddrGet | kernel/memory.c:55-82 | the bits found, clear before, are set; otherwise nothing changes |
| PageManager.PageManager.VaddrRemove | kernel/memory.c:419-435 | exactly the bits of the range are cleared |
| PageManager.PageManager.StoreWord | userprog/process.c:75-83 | a store in a mapped page is a store in its frame, and the agreement holds |
| PageManager.PageManager.MallocPage | kernel/memory.c:126-152 | NULL iff the search fails, with nothing changed; a failed assertion iff the count is bad, the bitmap full, the run reaches behind the window, or there are too few frames for the pages and for the tables they lack; otherwise the lowest free run is mapped, nothing else is, exactly these frames are taken, and the agreement holds |
| PageManager.PageManager.MapAll | kernel/memory.c:139-150 | the loop stops iff the run reaches behind the window or there are too few frames for its pages and the tables they lack; otherwise it maps all pages, sets aside nothing but tables, and writes to nothing but their entries and tables |
| PageManager.PageManager.GetAPage | kernel/memory.c:175-207 | exactly the page asked for is mapped and its bit set, and the agreement holds; it stops exactly for page 0, for the window of the other kind, for a page that is mapped, or for lack of a frame for the page or its table |
| PageManager.PageManager.MfreePage | kernel/memory.c:438-469 | for mapped pages, that of the directory in use not among them, no assertion fires; exactly these pages are unmapped, their bits cleared and their frames returned |
| Races.PageRace | kernel/memory.c:55-82 | a run found before another request mapped its pages is still free iff the two runs do not meet, and where they meet `page_table_add` stops at its assertion |
| Races.FrameRace | kernel/memory.c:41-52 | a frame found before another request took it is mapped twice, and no bookkeeping agrees with that |
| MemoryInit.PoolsInMemory | kernel/memory.c:215-242 | all frames lie in the installed memory iff there is at least what the kernel uses before |
| MemoryInit.TooLittleMemory | kernel/memory.c:215-242 | with one mebibyte the first frame lies outside the memory |
| MemoryInit.LayoutFits | kernel/memory.c:215-276 | the pools are adjacent, the bitmaps cover no more than the pools and fit below the stack of the main thread |
| MemoryInit.BootTables | boot/loader_func.S:130-198 | all page tables of the kernel half are there at boot |
| MemoryInit.BootAgreement | kernel/memory.c:215-276 | the state after `mem_pool_init` satisfies the agreement if and only if the table words of the kernel heap are not present, whatever the guard bit; then nothing is mapped |
| MemoryInit.BootAlias | boot/loader_func.S:146-161 | mapping a free kernel page in the first four megabytes also maps the address 3 GB below |
| Process.NewDirectory | userprog/process.c:65-86 | the copied directory maps itself, its tables are apart, and it shares the tables of the kernel half |
| Process.NewViews | userprog/process.c:65-95 | under the new directory the kernel half translates as before and the user half not at all |
| Process.NewPools | userprog/process.c:65-95 | the pools agree with what the process sees, the frames of its creator's user pages being set aside |
| Process.ProcessAgreement | userprog/process.c:65-95 | with the directory in a mapped page of the kernel and the window up to 0xc0000000, the agreement holds for the process, with the kernel half shared and the user half empty |
| Process.CreatePageDir | userprog/process.c:65-86 | NULL iff the search fails; otherwise one kernel page is mapped and nothing else, it holds the kernel half of the directory and its own frame in the last entry, and the agreement holds for the caller and for the process |
| Process.PageAddress | userprog/process.c:35-49 | `addr_v2p` of the page of the directory is the frame that is loaded |
| Process.StackGuards | userprog/process.c:27-28 | with the last page of the window in use, no search for any count finds a run that reaches behind the window |
| KernelHeap.MemInit | kernel/memory.c:510-517 | the kernel heap begins valid if and only if the table words are not present, empty, and with no page table missing |
| KernelHeap.LargestRequest | kernel/memory.c:323-348 | with 32 MiB, `sys_malloc` accepts 15728628 bytes, which are 3840 pages, for which `malloc_page` stops |
| KernelHeap.GetPages | kernel/memory.c:157-173 | pages taken by somebody else: the heap stays valid, and its base grows by exactly these pages |
| KernelHeap.GetPage | kernel/memory.c:175-207 | the same for one page at a given address, as the stack of a process |
| KernelHeap.NewDirectory | userprog/process.c:65-86 | the same for the page of a new directory |
| HeapModel.ClassOf | kernel/memory.c:352-357 | the smallest class that holds the size |
| HeapModel.BlockInPage | kernel/memory.c:291-294 | every block lies behind the header and inside its page |
| HeapModel.HomeOfBlock | kernel/memory.c:291-299 | `block2arena` undoes `arena2block` and finds the header of a large arena |
| HeapModel.BlockUnique | kernel/memory.c:291-299 | a block belongs to one arena and class under one number |
| HeapModel.LivePlace | kernel/memory.c:302-397 | a pointer handed out has at least its size inside its arena, behind the header that `block2arena` finds |
| HeapModel.LiveDisjoint | kernel/memory.c:302-397 | two pointers handed out never share a byte |
| HeapModel.LiveAvoidsHeaders | kernel/memory.c:302-397 | no byte handed out is in a header |
| HeapModel.LiveAvoidsFree | kernel/memory.c:302-397 | no byte handed out is in a free block |
| HeapModel.FullCount | kernel/memory.c:497 | the free count reaches the number of blocks iff no block of the arena is handed out |
| HeapModel.NothingLive | kernel/memory.c:471-508 | with nothing handed out there are no arenas and all lists are empty |
| HeapSteps.PopKeeps | kernel/memory.c:387-395 | taking the first block of a list keeps counts, lists and pointers consistent, and its arena had a free block |
| HeapSteps.NewSmallKeeps | kernel/memory.c:361-385 | cutting a vacant page into blocks keeps them consistent |
| HeapSteps.NewLargeKeeps | kernel/memory.c:331-344 | a large arena on vacant pages keeps them consistent, and its pointer is new |
| HeapSteps.PushKeeps | kernel/memory.c:494-497 | putting a block back keeps them consistent, and its arena was not full |
| HeapSteps.AllListed | kernel/memory.c:497-500 | when an arena is unused, each of its blocks is on the list, so the assertion of the loop holds |
| HeapSteps.DropKeeps | kernel/memory.c:497-503 | taking the blocks of an unused arena off the list and dropping the arena keeps them consistent |
| HeapSteps.FreeLargeKeeps | kernel/memory.c:491-492 | dropping a large arena keeps them consistent |
| HeapSteps.RemoveMore | kernel/memory.c:498-502 | removing elements one after another leaves the others in order |
| HeapPages.VacantPages | kernel/memory.c:126-152 | pages that were not mapped belong to no arena |
| HeapPages.SettledGot | kernel/memory.c:331-385 | pages just mapped become an arena, and the heap still owns exactly the pages that are not those of the base |
| HeapPages.SettledGave | kernel/memory.c:491-503 | the same after the pages of an arena have been unmapped |
| HeapPages.NotDirectory | kernel/memory.c:491-503 | no page that is not of the base is that of the directory in use |
| HeapPages.Conserved | kernel/memory.c:438-469 | translations equal to those of the base mean bitmaps equal to those of the base, and pools equal but for frames that hold page tables now |
| HeapPages.SettledRely | kernel/memory.c:126-206 | a step of others that leaves the pages of a heap alone leaves the heap as it is, with the base moved along |
| HeapPages.RelyMoved | kernel/memory.c:126-206 | mapping or unmapping pages that are not the heap's is such a step |
| HeapPages.BaseGrows | kernel/memory.c:126-206 | pages that others map are added to the base, and nothing else changes there |
| Heap.BlockDescInit | kernel/memory.c:278-288 | the loop makes the seven classes with their sizes and block counts and empty lists |
| Heap.Heap.FindClass | kernel/memory.c:352-357 | the loop finds the smallest class that holds the size |
| Heap.Heap.MallocLarge | kernel/memory.c:331-348 | the branch for more than 1024 bytes |
| Heap.Heap.NewArena | kernel/memory.c:361-385 | page, header and loop give all blocks of the page in order, and the assertion in the loop never fires |
| Heap.Heap.Take | kernel/memory.c:387-395 | the first block leaves its list and its arena counts one block less |
| Heap.Heap.SysMalloc | kernel/memory.c:302-397 | exactly when NULL, a pointer or a failed assertion results, also where page tables are missing; NULL changes nothing; a pointer is new, lists, arenas and pages change as stated, and the base does not; the invariant holds |
| Heap.Heap.Unlist | kernel/memory.c:498-502 | the loop never trips its assertion and leaves the other blocks in order |
| Heap.Heap.ReleaseArena | kernel/memory.c:491-503 | the pages of an arena can always be given back |
| Heap.Heap.SysFree | kernel/memory.c:471-508 | no assertion fires for a pointer that is out; the exact lists, arenas and pages afterwards; the base does not change, and the invariant holds |
| Heap.Heap.AllReturned | kernel/memory.c:471-508 | when every pointer is back, lists are empty, translations and bitmaps are those of the base, and so are the pools but for frames that hold page tables made for the heap; exactly if no table was missing; all as when the heap began if nobody else has changed anything |
| Heap.Heap.FreeAll | kernel/memory.c:471-508 | freeing all pointers in any order gets there |
| Heap.Heap.Adapt | kernel/memory.c:126-206 | a heap is valid again after others have worked on the pages and left its own alone |
| Spaces.NewForeign | kernel/memory.c:97-121 | a table that the space in use has just made is neither directory nor table of another space |
| Spaces.DirKept | kernel/memory.c:97-121 | mapping and unmapping in one space writes to no directory of another |
| Spaces.UserKept | kernel/memory.c:97-121 | the user pages of a space that is not in use translate as before |
| Spaces.NeighbourKept | userprog/process.c:35-49 | whatever the space in use maps or unmaps, a space that is not in use stays in agreement with pools, bitmaps and tables, and the two share nothing but the kernel half |
| Spaces.NeighbourStore | userprog/process.c:75-83 | so it does when the space in use stores in a page that is no directory |
| Turns.WorldStep | userprog/process.c:35-49 | the same for any number of address spaces at once |
| Turns.WorldNew | userprog/process.c:65-95 | a new directory makes one more address space in agreement with all others |
| Turns.WorldDirectory | userprog/process.c:65-86 | so it is after the page has been mapped and written to, whatever spaces there are |
| Turns.WorldSwitch | userprog/process.c:35-49 | with another directory loaded that space is in agreement, and the one that was in use is one of the others |
| Turns.PageForeign | kernel/memory.c:126-152 | a mapped page that is no directory is foreign to every space that is not in use, so stores in it are harmless there |
| HeapTurns.HeldUsed | userprog/process.c:65-86 | while the kernel heap maps and unmaps pages, the directories of all processes stay mapped |
| HeapTurns.RelySwitch | userprog/process.c:35-49 | the kernel heap can go on under another directory |
| HeapTurns.ParkedRely | userprog/process.c:35-49 | the heap of a process that is not in use keeps its pages and tables whatever the others do |
| Memory.Memory.constructor | kernel/memory.c:510-517 | after `mem_init` the whole invariant holds if and only if the table words are not present |
| Memory.Memory.KernelMalloc | fs/inode.c:81-88 | `sys_malloc` on the kernel heap under any directory: its exact outcome; all address spaces and all heaps of processes go on |
| Memory.Memory.KernelFree | fs/inode.c:107-119 | the same for `sys_free`, which never fails |
| Memory.Memory.UserMalloc | kernel/memory.c:302-397 | `sys_malloc` of the process in use: its exact outcome, also where it lacks tables; the kernel heap, all other spaces and heaps go on |
| Memory.Memory.UserFree | kernel/memory.c:471-508 | the same for `sys_free`, which never fails |
| Memory.Memory.GetPages | thread/thread.c:101 | pages for a new thread: exact outcome, and everything goes on |
| Memory.Memory.NewProcess | userprog/process.c:98-104 | `create_page_dir`: exact outcome, one more address space with an empty user half, and everything goes on |
| Memory.Memory.Switch | userprog/process.c:35-49 | any other space comes into use: the kernel heap goes on under its directory, its own heap is valid as it was left, and the space that was in use waits |
| Memory.Memory.StartProcess | userprog/process.c:12-33 | the stack is mapped and the heap of the process begins empty; it stops exactly for lack of a frame for the page or its table |
| Memory.StackFrames | userprog/process.c:27-28 | where its table is missing, the stack takes one frame of each pool |
| Memory.Memory.StackGuarded | userprog/process.c:27-28 | while its stack is mapped, no request of a process reaches behind its window |
| Scheduler.ThreadInitInv | thread/thread.c:192-200 | the state after `thread_init` satisfies the invariant |
| Scheduler.RequeueKeeps | thread/thread.c:125-136 | a thread that still runs goes to the back with a new slice, and the assertion holds |
| Scheduler.DispatchKeeps | thread/thread.c:138-150 | the first ready thread runs, idle if there was none, and the assertions hold |
| Scheduler.YieldKeeps | thread/thread.c:153-161 | yielding keeps the invariant and trips no assertion |
| Scheduler.BlockKeeps | thread/thread.c:164-174 | blocking keeps the invariant and trips no assertion |
| Scheduler.UnblockKeeps | thread/thread.c:176-190 | unblocking a sleeping thread puts it first and keeps the invariant |
| Scheduler.TickKeeps | device/timer.c:21-34 | a tick keeps the invariant and trips no assertion |
| Scheduler.StartKeeps | thread/thread.c:96-113 | a new thread goes to the back and keeps the invariant |
| Scheduler.WaitTick | device/timer.c:21-34 | a tick lowers the waiting bound of every thread that stays ready |
| Scheduler.WaitYield | thread/thread.c:153-161 | so does yielding |
| Scheduler.WaitBlock | thread/thread.c:164-174 | so does blocking |
| Scheduler.WaitUnblock | thread/thread.c:176-190 | unblocking raises the bound by at most the priority of the thread and one |
| Scheduler.WaitStart | thread/thread.c:96-113 | starting a thread does not change the bound |
| Scheduler.Cpu.constructor | thread/thread.c:192-200 | main runs, idle is ready |
| Scheduler.Cpu.Unblock | thread/thread.c:176-190 | the updates in place are the step `ThreadUnblock` |
| Scheduler.Cpu.Reschedule | thread/thread.c:125-151 | the updates in place are the step `Schedule`, and exactly one thread runs |
| Scheduler.Cpu.Yield | thread/thread.c:153-161 | the updates in place are the step `ThreadYield` |
| Scheduler.Cpu.Block | thread/thread.c:164-174 | the updates in place are the step `ThreadBlock` |
| Scheduler.Cpu.Tick | device/timer.c:21-34 | the updates in place are the step `TimerTick` |
| KernelProofs.StepKeeps | thread/sync.c:18-80 | no step of any thread or interrupt trips an assertion, and every step keeps the invariant of tasks, semaphores, locks and channels |
| KernelProofs.DownBlocks | thread/sync.c:22-32 | a turn of the loop that waits |
| KernelProofs.DownTakesLock | thread/sync.c:33-38 | the end of `sema_down` on the semaphore of a lock: the thread is alone in the section |
| KernelProofs.DownTakesDisk | device/ide.c:153-155 | the end of the wait for the disk: one accepted interrupt is consumed |
| KernelProofs.AcquireKeeps | thread/sync.c:57-67 | the test of `lock_acquire`, taken at any moment, sends a thread down the right branch |
| KernelProofs.ReleaseKeeps | thread/sync.c:69-70 | the first assertion of `lock_release` holds for a thread that has acquired the lock |
| KernelProofs.LockAdvanceKeeps | thread/sync.c:61-78 | every later test, assertion and assignment on `holder` and `holder_repeat_nr` in `lock_acquire` and `lock_release`, one access at a time under preemption: no assertion fires |
| KernelProofs.ReleaseUpKeeps | thread/sync.c:41-55 | `sema_up` at the end of `lock_release` |
| KernelProofs.CommandKeeps | device/ide.c:93-96 | sending a command under the lock of the channel |
| KernelProofs.DiskStepKeeps | device/ide.c:279-289 | an interrupt of the disk, expected or not |
| KernelRuns.BootInv | thread/sync.c:6-16 | the state after initialisation satisfies the invariant |
| KernelRuns.RunInv | thread/thread.c:125-190 | the invariant holds in every state of every run |
| KernelRuns.NoAssertionFires | thread/sync.c:18-80 | in no reachable state does any enabled step trip an assertion |
| KernelRuns.OneTagOneList | thread/thread.c:125-190 | exactly one thread runs, a thread is ready iff it is once in the ready list, and no tag is in two lists |
| KernelRuns.MutualExclusion | thread/sync.c:57-80 | at most one thread is between its down and its up, one iff the semaphore is taken, and wherever that thread is, `holder` and `holder_repeat_nr` are what its position and its nesting depth say |
| KernelRuns.NoLostWakeup | thread/sync.c:18-55 | the value is 0 or 1, and if it is 1 while threads wait, a woken thread has yet to retest |
| KernelRuns.DiskHandshake | device/ide.c:135-195 | commands sent less waits returned is the flag plus the semaphore, 0 or 1, and each wait consumes one accepted interrupt |
| KernelRuns.WaitStep | thread/thread.c:125-190 | every tick and every rescheduling lowers the bound of a ready thread; only an unblocked thread raises it, by at most its priority and one |
| KernelRuns.BoundedWaiting | thread/thread.c:125-190 | over a run in which a thread stays ready, ticks and reschedulings are fewer than its initial bound plus the slices of threads unblocked meanwhile |
| Machine.Machine.constructor | thread/sync.c:6-16 | the fields after initialisation |
| Machine.Machine.TimerInterrupt | device/timer.c:21-34 | the updates in place are the step `Tick` |
| Machine.Machine.SemaWait | thread/sync.c:22-32 | the updates in place are the waiting turn of the loop |
| Machine.Machine.SemaTake | thread/sync.c:33-38 | the updates in place are the end of `sema_down` |
| Machine.Machine.LockAcquire | thread/sync.c:57-60 | the test of the holder |
| Machine.Machine.LockRelease | thread/sync.c:69-70 | the first assertion, as a step of its own that keeps the invariant |
| Machine.Machine.LockRecord | thread/sync.c:61-78 | each single test, assertion and assignment on the record of the lock is the step at its program counter |
| Machine.Machine.LockUp | thread/sync.c:79 | the up at the end |
| Machine.Machine.CmdOut | device/ide.c:93-96 | the flag is raised with the command |
| Machine.Machine.DiskInterrupt | device/ide.c:279-289 | the flag is lowered and the semaphore raised iff the interrupt was expected |
| TagLists.Tags.constructor | thread/sync.c:6-16 | one tag for each thread and empty lists that share no node |
| TagLists.Tags.Append | lib/kernel/list.c:26-28 | the tag of a thread in no queue goes to the end of one, and all other lists stay |
| TagLists.Tags.Push | lib/kernel/list.c:22-24 | the tag of a thread in no queue goes to the front of one, and all other lists stay |
| TagLists.Tags.Pop | lib/kernel/list.c:39-43 | the tag of the first thread of a queue leaves it, and all other lists stay |
| TagLists.Tags.Find | lib/kernel/list.c:45-54 | a tag is found iff its thread is in the queue |
| TagLists.InvQueues | thread/thread.c:125-190 | under the invariant of the kernel no thread is in two queues, the running one is in none |
| TagLists.UpQueues | thread/sync.c:41-55 | what `sema_up` does to the queues |
| TagLists.WaitQueues | thread/sync.c:22-32 | what the waiting turn of `sema_down` does to the queues |
| TagLists.RotateQueues | thread/thread.c:125-161 | what the end of a time slice and `thread_yield` do to the queues |
| TagLists.Leaves | lib/kernel/list.c:39-43 | a thread taken from its queue is in none, so its tag can be linked again |
| TagLists.Tags.SemaUp | thread/sync.c:41-55 | the links changed by `sema_up` are the queues of the kernel after its step, and no assertion fires |
| TagLists.Tags.Dispatch | thread/thread.c:138-150 | the tag of the first ready thread leaves the ready list, that of idle if there was none |
| TagLists.Tags.SemaWait | thread/sync.c:22-32 | the links changed by the waiting turn are the queues of the kernel after its step, and the next thread is the one the kernel runs |
| TagLists.Tags.Rotate | thread/thread.c:125-161 | the same at the end of a time slice and for `thread_yield` |
| TagLists.Tags.Sleep | thread/thread.c:164-174 | the same for `thread_block` outside semaphores |
| TagLists.Tags.Wake | thread/thread.c:176-190 | the same for `thread_unblock` outside semaphores |
| TagLists.Tags.Start | thread/thread.c:96-113 | the same for `thread_start`, with a new tag |
| TagRuns.BootTags | thread/thread.c:192-200 | the lists after initialisation are the queues of the first state |
| TagRuns.Perform | thread/thread.c:125-190 | for every step of the kernel that can be taken, the links can be changed so that the lists are the queues of the next state, and no assertion on them fires |
| TagRuns.Replay | thread/thread.c:125-190 | along every run the lists in memory are the queues |
| TagRuns.WhereIs | thread/sync.c:18-55 | a thread is in the ready list iff it is ready, and among the waiters of a semaphore iff it is blocked there |
| TagRuns.WalkOn | thread/thread.c:106 | from the tag of a thread the links lead to the end of the list in which it is now: that of the ready list iff it is ready, and otherwise one behind which there is only NULL |
| Disk.PartServed | device/ide.c:143-150 | after whole parts, the transfer goes on iff all of it is served, and the byte sent for a part means its length |
| Disk.Disk.Fetch | device/ide.c:99-107 | the sectors asked for go to their place in the buffer |
| Disk.Disk.Read | device/ide.c:135-167 | it goes through iff the sectors exist and no part starts past the limit, and then the buffer holds exactly these sectors |
| Disk.Disk.Write | device/ide.c:170-195 | it goes through under the same condition, and then exactly these sectors hold the buffer |
| InodeTable.RoundTrip | fs/inode.h:7-17 | a record of 19 words reads back as it was written |
| InodeTable.LocateExact | fs/inode.c:13-30 | the sectors read hold the whole record, two iff it crosses, and lie in the table |
| InodeTable.ThroughBuffer | fs/inode.c:50-59 | reading, changing and writing whole sectors is writing the record alone |
| InodeTable.StoredHit | fs/inode.c:33-60 | the slot written reads back as the record |
| InodeTable.StoredMiss | fs/inode.c:33-60 | every other slot is as before |
| InodeTable.SyncedSlot | fs/inode.c:37-39 | the record is found under its number iff the number is below 256 or the slot held the same |
| InodeTable.SyncNumbers | fs/inode.c:37-39 | slots that hold their own numbers still do iff the number is below 256 or its low byte is not such a slot |
| InodeTable.LostInode | fs/inode.c:37-39 | inode 256 in a blank table is not found again, and slot 0 loses its number |
| OpenInodes.Partition.Rewrite | fs/inode.c:50-59 | the read, the change and the write |
| OpenInodes.Partition.Sync | fs/inode.c:33-60 | exactly when it goes through, with the end of the partition as a sum in 32 bits, and that the disk changes in one record only |
| OpenInodes.Partition.Load | fs/inode.c:77-100 | the record of a slot, read through one or two sectors |
| OpenInodes.Partition.Find | fs/inode.c:67-75 | the walk ends at the node with the number iff there is one |
| OpenInodes.Partition.Open | fs/inode.c:63-105 | one node per number, counts are opens less closes; an open node is shared, another is read from its slot and put first, and then the list is consistent if and only if the slot holds its own number; exactly when it stops |
| OpenInodes.Partition.OpenNew | fs/inode.c:77-105 | the node of an inode that was not open: the record of its slot, and the list consistent if and only if that holds the number |
| OpenInodes.Partition.Close | fs/inode.c:107-119 | the count of the node drops, the node leaves the list iff it reaches zero, and no other record changes |
| OpenInodes.Partition.SyncOpen | fs/inode.c:33-105 | `inode_sync` and then an `inode_open` that reads give back the fields kept on disk if and only if the number is below 256 or the slot held them before |
| OpenInodes.RecountKeeps | fs/inode.c:71-72 | a changed count keeps the list consistent |
| OpenInodes.PushKeeps | fs/inode.c:101-102 | a new node keeps the list consistent |
| OpenInodes.PushExact | fs/inode.c:101-102 | a new node keeps the list consistent if and only if it carries the number asked for |
| OpenInodes.DropKeeps | fs/inode.c:110-111 | a node that leaves keeps the list consistent |
| PartitionFormat.PlanSizes | fs/fs.c:69-82 | enough bitmap sectors, none without need, all within the partition, and few sectors unused |
| PartitionFormat.PlanFits | fs/fs.c:69-82 | the plan fits iff the partition has the fixed part and the rounding does not wrap around |
| PartitionFormat.TooSmall | fs/fs.c:69-82 | 610 sectors: no bitmap sectors and 2^32 - 1 bits |
| PartitionFormat.RegionsInOrder | fs/fs.c:91-100 | the regions follow each other without overlap, the metadata inside the partition |
| PartitionFormat.BitsBehind | fs/fs.c:91-100 | which bits stand for sectors inside the partition |
| PartitionFormat.SectorBehind | fs/fs.c:91-100 | 4096 sectors: a bit in use stands for a sector behind the end |
| PartitionFormat.BlockBitmap | fs/fs.c:112-127 | the bytes after setting, filling and the clearing loop; it writes past the end iff the buffer ends before the sector of the last bit |
| PartitionFormat.MadeBits | fs/fs.c:112-127 | each bit: set from the bit count on, and bit 0 if there are at least 8 |
| PartitionFormat.BitmapRight | fs/fs.c:112-128 | a bit is set iff it is bit 0 or past the end, iff there are no bits or at least 8 |
| PartitionFormat.OneBit | fs/fs.c:112-128 | 613 sectors: the one bit is not set |
| PartitionFormat.BufferHolds | fs/fs.c:112-122 | the buffer is long enough iff the bitmap does not fill it exactly |
| PartitionFormat.ShortBuffer | fs/fs.c:112-122 | 608 full sectors of bits: the buffer is one sector short |
| Format.Format | fs/fs.c:68-166 | for every start and size, sums in 32 bits: exactly when formatting goes through and exactly when it writes past its buffer, and the five writes it makes |
| Format.WrappedPlan | fs/fs.c:69-128 | sizes that wrap around always lead past the buffer |
| Format.RegionsHold | fs/fs.c:107-161 | afterwards every region holds what was written to it |
| Format.RestHolds | fs/fs.c:107-161 | nothing outside the metadata and the first data sector changes |
| Format.FormattedSlots | fs/fs.c:137-143 | slot 0 reads as the root directory, every other slot as zeros |
| Format.AllServed | fs/fs.c:107-161 | if the first data sector can be written, so can all before it |
| IoQueue.EmptyOrFull | device/ioqueue.c:15-29 | the tests on head and tail mean no character and 63 characters |
| IoQueue.PutAppends | device/ioqueue.c:81-82 | a put appends to the stored characters |
| IoQueue.GetTakes | device/ioqueue.c:58-59 | a get takes the oldest |
| IoQueue.StepKeeps | device/ioqueue.c:32-87 | every step of keyboard and reader keeps order and wait state, and no assertion fails |
| IoQueue.RunInv | device/ioqueue.c:8-87 | the invariant holds in every state of every run |
| IoQueue.FirstInFirstOut | device/ioqueue.c:46-87 | characters taken are the first of those accepted, the rest is stored in order, a recorded reader means an empty queue, a key is dropped iff 63 are stored, and a woken reader gets a character at once |
| IoQueue.Ring.Press | device/keyboard.c:167-171 | the updates in place are the guarded put |
| IoQueue.Ring.GetChar | device/ioqueue.c:46-66 | the updates in place are the test, and the wait or the get |

## Left out

- Contents of heap blocks: `sys_malloc` clears what it hands out; headers and list links are kept as values, which `HeapModel.LiveAvoidsHeaders`, `HeapModel.LiveAvoidsFree`, `PageSteps.DataStoresAreHarmless` and for other address spaces `Turns.PageForeign` justify.
- Locks around the heap and the pools: the operations of `Heap` and `PageManager` are taken as a whole, as the lock of the pool makes them; for `get_kernel_pages`, which takes none, `Races.PageRace` and `Races.FrameRace` say what an interleaving does.
- Pages for the `task_struct` and the bitmap of a process: `Memory.Memory.GetPages`; that a process or a thread ends and gives anything back does not happen in this kernel.
- Stores of a process in its own pages: they are not operations of `Memory`, but `Turns.WorldStore` and `Turns.PageForeign` cover them.
- PageManager.PageManager.GetAPage: for a page of the window; the kernel calls it for the stack page only. The lock, which the path that returns NULL does not release, is not modelled; that path is never taken.
- A kernel thread has no user window; the model gives it an empty one in front of 0xc0000000.
- State after a failed assertion or a transfer that fails half-way: nothing is claimed about it.
- Threads that end, thread ids, names and stacks: not part of the step system; `allocate_pid` reads its counter after releasing the lock, so uniqueness is not claimed.
- `thread_start` is one step of `Kernel`; `TagRuns.WalkOn` is about its calls of `elem_find`, which run with interrupts on. For a thread asleep outside semaphores, whose tag is in no list, the old link it follows is not modelled.
- Context switch, interrupt gates, ports and the translation cache: a switch changes the running thread, tables and sectors are plain state.
- `busy_wait` and disk identification: timing and device polling; a disk error is a request for sectors that do not exist.
- OpenInodes.Partition.Open: takes the memory for the node as granted, and asks that the count of opens stays below 32 bits.
- The list of open inodes is a sequence of nodes here; its links are those of `IntrusiveList`. The inode table is taken to end before sector number 2^32.
- `IoQueue`: one reader and the keyboard; producers that wait in `ioq_putchar` and several readers are not modelled, because the queue is not tested again after the lock is taken.
- Format.Format: takes the memory for its buffer as granted; nothing is said about the disk after it stops or writes past its buffer.
- `fs/dir.c`, `fs/file.c`, `partition_scan`, `mount_partition`, console, `printk`, string functions, system call stubs and key tables: unfinished in the kernel, or straight-line code without state that outlasts a call.
