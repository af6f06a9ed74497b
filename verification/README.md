# ZincOS in Dafny

ZincOS is a small 32-bit x86 kernel. This project models the parts of it that hold state and depend on one
another, and proves what they keep over every run:

* the boundary-tag heap over raw bytes (`HeapBlocks`, `Heap`);
* the physical block allocator: division of a memory region, the bitmap, the next-fit search (`Bits`,
  `Partition`, `Blocks`, `BlockAllocator`);
* two-level page tables, copied on write from a template (`Pages`, `PageRuns`, `Paging`), and what they let user
  mode touch (`Protection`);
* who owns which block: page directories, process and thread lists, stacks and heaps (`Ownership`), how a process
  is born (`Births`), whole runs of births, growth and ends (`ProcessRuns`), what system calls and user programs
  may store into memory (`Stores`), what the bookkeeping does not give (`Limits`), and the code that does all this
  (`Kernels`, `Processes`);
* the round-robin scheduler with blocking reads (`Scheduling`) and the path of a key from the keyboard to the
  process that reads (`Console`);
* the scrolling terminal and its mirror in video memory (`Terminals`), the growing buffers (`Buffers`) and
  decimal output (`Digits`);
* the scheduler, the memory of its processes and all that is stored into it in one run (`WholeKernel`).

Code that works by changing things step by step is modelled by classes over arrays and by methods with loops;
each is tied to a function or a relation on values, and the theorems are about those. `Machine` has the 32-bit
words, the wrap-around and the little-endian loads and stores.

## How the layers fit

`Heap.Heap` works on bytes; its ghost field `blocks` is the sequence of blocks that a walk over the headers
finds. `Heap.Heap.Serve` makes a `Heap.ByteStep`, which moves `blocks` as `HeapBlocks.Step` does, so the theorems
about runs of block sequences are theorems about the bytes, and clients read back what they wrote.

`BlockAllocator.Memory` keeps its bits in physical memory itself, in the words of the first data blocks, where the
code keeps them; `Used()` is the set of block numbers whose bit is set. Page tables lie in the same memory.
`Kernels.KernelMemory` has the two together: its ghost field `books` shows the page tables and which page is held
by which position of which list, and agrees with memory everywhere but on the page of the bits.
`Kernels.Shielded` asks for at most 32768 data blocks; `BlockAllocator.BlockZeroInsulates` shows that this is
exactly when writes elsewhere leave the bits alone.

`Processes.Process` adds the lists of one process. Its constructor, `CreateThread`, `ExpandHeap`,
`TerminateThread` and `Destroy` ensure a `BirthStep`, `SpawnStep`, `GrowSteps`, `ThreadGone` and `ProcessGone`;
these are the changes of `ProcessRuns.Change`, whose hypotheses are pages not in use, room in the address space
and an unused id, and `ProcessRuns.RunsOk` is about all runs of them.

`Scheduling.Scheduler` makes steps of `Scheduling.Step`, whose processes carry the reading side of
`Console.State`; `Console.Channel` is the code of that side. `WholeKernel.RunOk` runs the scheduler, the changes
of memory and the stores into it together: the bytes a read delivers, the answer of `sys_alloc`, and what threads
store in user mode. What it asks of programs is in `WholeKernel.Asked`, and a caller can check it: buffers lie on
the process's own image, heap or live stacks, in consecutive frames; user mode stores there too; and a thread does
not end while a read waits for bytes into its stack.

## Where the code falls short of its intent

Each of these is kept as the code has it, with the exact condition under which the code does what is meant.

* The bitmap is zeroed in its reserved blocks, but its words are read and written from the first *data* block
  on (`kernel/memory.h:43,47,51` against `kernel/memory.cpp:15-19`). Keeping block 0 back protects those words
  exactly when there are at most 32768 data blocks, 128 MB (`Partition.BlockZeroShieldsBitmap`,
  `BlockAllocator.BlockZeroInsulates`). With more, as on the 1 GB machine of `Makefile:8`, the first request is
  given block 1, and whoever writes its first word changes whether block 32768 is used
  (`BlockAllocator.LargeMemoryLosesMarks`). What is in block 0 at start counts as marked
  (`BlockAllocator.Memory.constructor`).
* A region without a whole block makes the constructor's subtraction wrap (`Partition.DivideIsExact`,
  `Partition.TinyRegionOverflows`).
* `allocate_blocks` may return NULL although a run is free below the cursor; the next call finds it
  (`Blocks.FirstTryMissesBelow`, `Blocks.SecondTryIsComplete`; an instance: `Blocks.FreeRunMissed`).
* `free_block` of an address past the last block lowers the counter although nothing was freed, and only then is
  the counter wrong (`BlockAllocator.FreeCounts`, `BlockAllocator.FreePastEnd`).
* A process that ends does not free the blocks of its threads (`Limits.ThreadBlocksStayUsed`).
* The end of a thread keeps the page tables in order if and only if its directory entry was private when it was
  made (`Ownership.CreateThreadOk`, `Ownership.EndThreadExact`). The first 512 threads always meet this; the 513th
  does not, and its end leaves a directory entry on a page not in use (`Limits.ThreadBeyondFirstTable`).
* A thread that ends leaves its stack mapped, and another process may be given the block, as memory
  (`Limits.EndThreadLeavesStale`, `Limits.StaleFrameIsShared`) or as a page table that the first can then write
  (`Limits.StaleFrameBecomesTable`). Of all changes only the end of a thread does this (`Limits.ChangesKeepCurrent`,
  `Limits.ChangesKeepTidy`): as long as none ends, no two processes share a frame (`Limits.NoFrameIsShared`). A new
  thread puts it right if and only if it gets the freed stack (`Limits.SpawnRestoresTidy`).
* `get_physical` translates an address that is not mapped to itself, so `sys_alloc` and `sys_read` store wherever
  their caller says, a page table included (`Limits.StoreThroughIdentity`). Whatever is stored on a page, the kernel
  and all processes stay in order if and only if the page holds no directory or table in use
  (`Stores.StoresKeepSystem`), and the block marks if and only if it is not theirs (`Stores.StoresKeepMarks`). The
  process's own data never is (`Stores.DataIsHarmless`), and a buffer whose pages lie there in consecutive frames
  leads nowhere else (`Stores.GoodBufferLeadsToData`).
* A read buffer on the stack of a thread that ends lies in free blocks at once (`Limits.BufferOnEndedStack`).
* The most negative number prints as a sign and a bracket (`Digits.PrintedReadsBack`), given that its negation wraps.
* `sys_read`, `sys_write` and `sys_alloc` translate only the first address of a buffer: right exactly when the
  buffer's pages lie in consecutive frames (`Pages.BufferIsContiguous`). On a stack that is exactly when the buffer
  stays in one page, since the two stack pages lie in reverse order (`Limits.StackBuffer`).
* A second thread's read replaces the count and the buffer of a read still waiting
  (`Console.DeliveredCount`, `Console.SecondReadOverwrites`).
* `task_switch` looks at the state of a process only when it moves on: a blocked process still runs its
  remaining threads, and the one behind a process that ends may run though it is blocked
  (`Scheduling.DispatchesBlocked`, `Scheduling.BlockedRunsOut`, `Scheduling.SuccessorMayRunBlocked`; from the boot
  state: `Scheduling.BlockedProcessRuns`, `Scheduling.SuccessorRunsBlocked`). The thread behind one that ends loses
  its turn (`Scheduling.ThreadEndSkipsNext`, `Scheduling.ThreadIsPassedOver`).
* Backspace with the cursor in the upper left corner leaves the screen (`Terminals.CornerStopsBackspace`). A typed
  line can be taken back exactly when its start has not scrolled away (`Console.KeysTakeLineBack`); a line that
  fills a new screen cannot (`Console.FullScreenIsLost`).

## Model

| member | source | states |
|---|---|---|
| HeapBlocks.RunKeeps | kernel/heap.cpp:46-101 | after any run of allocations, frees of live pointers and client writes the blocks tile the heap without gap or overlap, and no two neighbours are both free |
| HeapBlocks.FreeAllRestores | kernel/heap.cpp:73-101 | full coalescing: once every live pointer has been freed, in any order, the heap is one free block again |
| HeapBlocks.AllFreeIsOneBlock | kernel/heap.cpp:86-100 | a heap without live pointers is a single free block of the whole size less one header and footer |
| HeapBlocks.PayloadsDisjoint | kernel/heap.cpp:46-71 | payloads of different blocks never share a byte and lie inside the heap |
| HeapBlocks.SizesAddUp | kernel/heap.cpp:36-44 | conservation: the block sizes add up to the heap less 20 bytes a block |
| HeapBlocks.FirstFit | kernel/heap.cpp:48-51 | the lowest free block of at least the wanted size, and none before it fits; past the end when none fits at all |
| HeapBlocks.AllocateKeeps | kernel/heap.cpp:55-70 | splitting or taking a block whole keeps the tiling and leaves no two free neighbours |
| HeapBlocks.AllocateServes | kernel/heap.cpp:46-71 | a request is served whenever some free block can hold it: where the block handed out begins, how large it is, what becomes of the surplus, and that no other block changes |
| HeapBlocks.FreeKeeps | kernel/heap.cpp:77-100 | merging in both directions keeps the tiling and leaves no two free neighbours |
| HeapBlocks.AllocateAddsPointer | kernel/heap.cpp:46-71 | a success hands out exactly one new pointer, which nobody held; a failure changes nothing |
| HeapBlocks.FreeDropsPointer | kernel/heap.cpp:73-101 | a free ends exactly one pointer and no other |
| HeapBlocks.FreeingFreeIsIdle | kernel/heap.cpp:93-94 | freeing a block that is free already changes nothing |
| HeapBlocks.StepKeeps | kernel/heap.cpp:46-101 | one request of any kind keeps a well-formed heap well-formed |
| Heap.Heap.constructor | kernel/heap.cpp:20-34 | the bytes become a heap with one free block between zero sentinels, and no byte outside is touched |
| Heap.Heap.Allocate | kernel/heap.cpp:46-71 | NULL exactly when no free block holds the wanted size; else the payload of the lowest that does, now used and with room for all that was asked; a surplus beyond both tags is a free block right behind it of just the rest, a smaller one stays with the block; all other blocks are as before, tags and sentinels stay right, no live payload byte and no byte outside the heap changes |
| Heap.Heap.FindFit | kernel/heap.cpp:47-49 | the walk over the headers ends at the first block that fits, or at the sentinel |
| Heap.Occupy | kernel/heap.cpp:52-70 | the footer check never fails on a block that was found, the sum of sizes does not wrap, and the writes are those of a split or of a use in place |
| Heap.Split | kernel/heap.cpp:55-67 | the seven stores of a split produce the tagged pair of blocks |
| Heap.CarvedIsTagged | kernel/heap.cpp:55-67 | after a split both halves have header and footer in place, the footers pointing back, and nothing outside the block changed |
| Heap.Heap.Free | kernel/heap.cpp:73-101 | the block merges with all free neighbours on both sides; an address without a header before it is left alone; no other live payload byte changes |
| Heap.Heap.LeftmostHeader | kernel/heap.cpp:79-85 | the footers lead left exactly over the free neighbours and stop at the sentinel |
| Heap.Heap.RightmostHeader | kernel/heap.cpp:86-92 | the headers lead right exactly over the free neighbours and stop at the sentinel |
| Heap.Join | kernel/heap.cpp:93-100 | the stores of a merge produce one tagged free block |
| Heap.JoinRepresents | kernel/heap.cpp:93-100 | the bytes after a merge represent the merged block sequence and keep all live payloads |
| Heap.PayloadWritesAreSafe | kernel/heap.cpp:36-44 | clients may write anything inside live payloads: tags, sentinels and block sequence survive |
| Heap.Heap.Serve | kernel/heap.cpp:46-101 | every request on the bytes steps the block sequence, keeps every other byte of a live payload, and a client write changes its byte only |
| Heap.ReadBack | kernel/heap.cpp:46-101 | over every run clients read back what they wrote: a byte of a live payload has the value last written, whatever is allocated, freed and written elsewhere |
| Heap.ByteKept | kernel/heap.cpp:46-101 | one request leaves every other live block in place and every byte of it as it was |
| Partition.DivideIsExact | kernel/memory.cpp:9-18 | bitmap blocks and data blocks cover exactly the whole blocks of the region, if and only if the region rounds inward without overflow and is not only the last block below 4 GB |
| Partition.DivideInBlocks | kernel/memory.cpp:10-18 | for every base and size, wrap-around included, what the 32-bit arithmetic yields counted in blocks |
| Partition.TinyRegionOverflows | kernel/memory.cpp:10-13 | a region without a whole block gets more than a million data blocks |
| Partition.ReservedBlocksHoldAllBits | kernel/memory.cpp:13-19 | every data block's bit has its word inside the reserved bitmap blocks |
| Partition.BlockZeroShieldsBitmap | kernel/memory.h:41-54 | as the code places them, the bitmap words stay clear of every block but block 0 if and only if there are at most 32768 data blocks |
| BlockAllocator.BlockZeroInsulates | kernel/memory.h:41-54 | writes outside data block 0 leave the set of used blocks as it is if and only if there are at most 32768 data blocks |
| BlockAllocator.LargeMemoryLosesMarks | kernel/memory.h:41-54 | with more, the first request yields block 1, whose first word decides whether block 32768 is used |
| Blocks.NextFitIsLowest | kernel/memory.cpp:32-45 | the search finds the lowest free run at or above its start, and fails only when there is none |
| Blocks.RequestMarksItsRun | kernel/memory.cpp:38-43 | a success marks exactly count contiguous blocks that were free and nothing else, never block 0; a failure marks nothing |
| Blocks.SecondTryIsComplete | kernel/memory.cpp:28-47 | a failed request repeated at once fails again if and only if no such free run exists anywhere |
| Blocks.FirstTryMissesBelow | kernel/memory.cpp:28-47 | one request fails if and only if no such run lies at or above the cursor |
| Blocks.LastBlockComesBack | kernel/memory.cpp:28-47 | the cursor stays on the last block handed out: freed, that block is what the next request for one block gets; after a failure the search starts from block 0 |
| Blocks.FreeRunMissed | kernel/memory.cpp:28-47 | two free blocks below the cursor that the first request misses and the second finds |
| BlockAllocator.MarkedSet | kernel/memory.h:41-44 | setting a bit of a word adds exactly that block to the used set |
| BlockAllocator.MarkedCleared | kernel/memory.h:45-48 | clearing a bit of a word removes exactly that block from the used set |
| BlockAllocator.Memory.constructor | kernel/memory.cpp:9-21 | the reserved blocks become zero and nothing else outside the bits changes; block 0 is used; the counter is right if and only if no other bit was set before |
| BlockAllocator.Memory.IsBlockUsed | kernel/memory.h:49-54 | true exactly for used blocks and for numbers past the end |
| BlockAllocator.Memory.MarkBlockUsed | kernel/memory.h:41-44 | one block more is used, none past the end |
| BlockAllocator.Memory.MarkBlockFree | kernel/memory.h:45-48 | exactly that block is used no more |
| BlockAllocator.Memory.AllocateBlocks | kernel/memory.cpp:28-47 | the address of the lowest free run at or above the cursor, or NULL, which is unambiguous while block 0 is used; the run is marked and counted, and the cursor stands on its last block, or at the end after a failure |
| BlockAllocator.Memory.BlockOf | kernel/memory.cpp:51-53 | the number of the block that begins at the address, by 32-bit arithmetic, and none for any other address |
| BlockAllocator.Memory.FreeBlock | kernel/memory.cpp:50-58 | an unaligned address changes nothing; exactly the block of the address is cleared; the counter stays right if and only if the block number is not past the end |
| BlockAllocator.FreeCounts | kernel/memory.cpp:50-58 | freeing a block keeps the counter right if and only if its number is not past the end |
| BlockAllocator.FreePastEnd | kernel/memory.cpp:50-58 | an instance where it is not |
| Pages.MapIsOnePoint | kernel/paging.cpp:18-30 | through the cloning and the other branch, a mapping changes the frame of its own page only |
| Pages.MapMovesOnePage | kernel/paging.cpp:18-36 | in terms of get_physical: addresses in the mapped page get the new frame plus their offset, all others translate as before |
| Pages.MapIsolates | kernel/paging.cpp:18-30 | the template and every other process keep all directory entries and all translations |
| Pages.MapKeepsWorld | kernel/paging.cpp:18-30 | each directory entry stays the template's or leads to a table private to that entry; no two directories share a private table |
| Pages.MapTouches | kernel/paging.cpp:22-28 | only the directory entry and the one private table are written, flags never move a frame |
| Pages.OrFlags | kernel/paging.cpp:25-28 | or-ing flag bits into an entry keeps the frame it points to |
| Pages.TranslateByPage | kernel/paging.cpp:32-36 | the shifts of get_physical split an address into directory index, table index and offset |
| Pages.BufferIsContiguous | kernel/kernel.cpp:152-177 | translating the first address of a buffer is enough if and only if its pages lie in consecutive frames |
| PageRuns.RunSees | kernel/paging.cpp:18-36 | copy-on-write over all runs of directory creations and mappings: every process translates by its own latest mappings and the identity elsewhere, and the template stays the identity |
| PageRuns.KernelStaysShared | kernel/process.cpp:26-27 | mappings at or above 8 MB never unshare the two kernel entries of any directory |
| Protection.RunGuarded | kernel/paging.cpp:18-30 | protection over all runs of directory creations and user mappings: user mode can touch exactly the pages its own process mapped, and write exactly those when they were mapped to be written |
| Protection.MapOpensOnePage | kernel/paging.cpp:22-28 | a mapping with the user flags lets user mode touch its own page, and write it with the writable flag, and no other page, though a whole table becomes private |
| Protection.MapOpensNoOther | kernel/paging.cpp:22-28 | what other processes can touch and write does not change |
| Protection.TemplateIsClosed | kernel/kernel.cpp:231-238 | by bits: in the filled template both entries of each of the kernel's 2048 pages are present, writable and not the user's, no other page is present, and no entry lets user mode through |
| Protection.IdentityIsKernels | kernel/kernel.cpp:226-230 | by bits: in the filled identity directory both entries of every page are present, writable and not the user's |
| Protection.RunHasKernel | kernel/process.cpp:26-27 | over all runs of directory creations and mappings at or above 8 MB every directory has the kernel's 8 MB present, writable and not the user's, on the frames the template has |
| Protection.MapWrites | kernel/paging.cpp:22-28 | the two entries a mapping leaves, to the bit: the frame and a new table with present, writable and user, and no other bit |
| Protection.KernelFlags | kernel/kernel.cpp:228-237 | of the flag combinations in use only that of process mappings gives user mode access, and it gives write access too |
| Paging.ClonePageTable | kernel/paging.cpp:13-15 | the target table equals the source, nothing else changes |
| Paging.MapPhysical | kernel/paging.cpp:18-30 | off the page of the block marks memory becomes the mapped one; a block is taken exactly when the entry was shared, its address is returned, and no other mark changes |
| Paging.GetPhysical | kernel/paging.cpp:32-36 | the frame of the page of the address, with the offset kept |
| Paging.FillTables | kernel/kernel.cpp:226-238 | the nested loops fill all 1024 tables and the directory with identity entries, with the first flags for the first 8 MB and the others above, and write nowhere else; what the flags mean is in `Protection.TemplateIsClosed` and `Protection.IdentityIsKernels` |
| Paging.FilledIsIdentity | kernel/kernel.cpp:226-238 | the filled tables map every page to itself, each directory entry to a table of its own |
| ProcessRuns.RunsOk | kernel/process.cpp:16-80 | over every run of births, heap growth, new threads and ends, from pages that were not in use and with no other writes to memory: each live process translates by its own mappings, can touch and write just those pages, has the kernel's 8 MB as the template has them, the kernel's directory stays the identity, and every page in use is exactly one of the kernel's own, named once by one live process, or left by the threads of an ended one |
| ProcessRuns.RunsProtect | kernel/process.cpp:16-80 | over every such run, for every page of every live process: user mode touches and writes it if and only if it is mapped; below 8 MB it is present and writable for the kernel alone, on the frame of its own number; the kernel's own directory has every page present and writable, and not for users |
| ProcessRuns.StartOk | kernel/kernel.cpp:217-238 | the kernel as its constructor leaves it is where runs start |
| ProcessRuns.MovesOk | kernel/process.cpp:16-80 | each such change alone keeps the kernel and all processes in order |
| ProcessRuns.MovesAccount | kernel/process.cpp:16-80 | conservation: each change moves pages between the free ones, the lists and those left behind, none lost and none twice |
| ProcessRuns.GrowMoves | kernel/process.cpp:94-100 | from a free block, room below the stacks and a free page for a table if one is missing, a heap page more is sound |
| ProcessRuns.SpawnMoves | kernel/process.cpp:50-74 | from free blocks and a free stack, a thread more is sound, on any stack, beyond the first 512 as well |
| ProcessRuns.BirthMoves | kernel/process.cpp:16-42 | from pages not in use a new process is complete and sound and nobody notices; its lists and mappings are given outright |
| ProcessRuns.StepsAreMoves | kernel/process.cpp:16-80 | what the constructor, create_thread, one turn of expand_heap, terminate_thread and the destructor of a process do are these changes of the system |
| ProcessRuns.GrowStepsRun | kernel/process.cpp:92-102 | the n turns of expand_heap are a run of n growing changes of that process |
| Ownership.NamedOnce | kernel/process.cpp:16-80 | the page directories and block lists of all live processes and threads are pairwise disjoint and all marked used |
| Ownership.MapInSpares | kernel/process.cpp:32-36 | a mapping in one process changes nothing that concerns another |
| Ownership.MapInEntry | kernel/process.cpp:36 | what the hardware finds for a page of a process: its frame and its table, present, writable and the user's, and no other bit |
| Ownership.KernelIsThere | kernel/process.cpp:26-27 | while a live process runs, the kernel's 8 MB are present and writable on frames of the same number, user mode cannot touch them, and the process has mapped none of them |
| Ownership.GrowOk | kernel/process.cpp:94-100 | one turn of expand_heap backs the next heap page by a block the process did not have; earlier heap pages and stacks stay as they were |
| Ownership.CreateThreadOk | kernel/process.cpp:50-74 | a new thread has its own stack and two blocks, all else stays; it lists a page table if and only if its directory entry was still the template's, which the first 512 stacks never are |
| Ownership.MainThreadOk | kernel/process.cpp:41 | the main thread completes the process and makes the table of the first stacks private |
| Ownership.EndThreadOk | kernel/process.cpp:76-80 | ending a thread that lists no table keeps its process and every other in order |
| Ownership.EndThreadExact | kernel/process.cpp:76-80 | the end of a thread leaves the page tables in order if and only if it lists no table; otherwise a directory entry leads to a page not in use |
| Ownership.EndThreadFrees | kernel/process.cpp:76-80 | the blocks a thread frees are all different and in use |
| Ownership.EndProcessOk | kernel/process.cpp:44-48 | a destroyed process leaves the page tables of all others in order |
| Ownership.EndProcessFrees | kernel/process.cpp:44-48 | the blocks freed are pairwise different and all in use, as many as the list has and the directory |
| Births.WithImageOk | kernel/process.cpp:30-39 | after each turn of the image loop the list names the blocks so far with the one table behind the first, and the pages from 8 MB on map to them in order |
| Births.BornOk | kernel/process.cpp:16-42 | the newborn lists eight image blocks and their table, has its main thread on the first stack, and takes exactly thirteen pages |
| Births.NewbornLayout | kernel/process.cpp:8-12 | in bytes: the image from 8 MB on in order, the heap from 512 MB, the first stack up to 1 GB; the image's blocks are listed in order, their table behind the first |
| Limits.ThreadBlocksStayUsed | kernel/process.cpp:44-48 | every block of every thread is still marked used after its process is destroyed, and there is always at least one |
| Limits.ThreadBeyondFirstTable | kernel/process.cpp:57-80 | from a birth and 512 more threads: the last one lists a table, and its end leaves a directory entry of the live process on a page not in use |
| Limits.StackBuffer | kernel/kernel.cpp:152-177 | a buffer on a stack is translated right if and only if it stays in one page |
| Limits.FramesApart | kernel/process.cpp:16-80 | processes whose mappings are all in their lists have no frame in common that user mode could touch |
| Limits.ChangesKeepCurrent | kernel/process.cpp:16-80 | from processes whose mappings are all in their lists, a change keeps them so if and only if it ends no thread |
| Limits.NoFrameIsShared | kernel/process.cpp:16-80 | over every run in which no thread ends, no two live processes ever share a frame that user mode can touch |
| Limits.ChangesKeepTidy | kernel/process.cpp:16-80 | from processes that have only image, heap and live stacks mapped, a change keeps them so if and only if it ends no thread |
| Limits.UserReach | kernel/process.cpp:16-80 | that is the case if and only if user mode reaches nothing but the process's own data |
| Limits.SpawnRestoresTidy | kernel/process.cpp:50-80 | after a thread has ended, a new thread restores it if and only if it gets the freed stack |
| Limits.EndThreadLeavesStale | kernel/process.cpp:76-80 | a thread that ends leaves its stack mapped to a block its process no longer has |
| Limits.StaleFrameIsShared | kernel/process.cpp:76-102 | when another process grows by that block, both can touch it |
| Limits.StaleFrameBecomesTable | kernel/process.cpp:76-102 | when another process needs a page table and gets that block, the first can write a table in use |
| Limits.BufferOnEndedStack | kernel/process.cpp:76-90 | the frames of a buffer on an ended thread's stack are free and in nobody's list |
| Limits.StoreThroughIdentity | kernel/kernel.cpp:171-175 | an instance where the answer of sys_alloc, given an address that is not mapped, destroys a page table of the template |
| Stores.StoreIsExact | kernel/process.cpp:83-86 | the bytes arrive in order and no other byte of memory changes |
| Stores.StoresKeepSystem | kernel/kernel.cpp:160-175 | whatever is stored on a page, kernel and processes stay in order if and only if it holds no directory or page table in use |
| Stores.StoresKeepMarks | kernel/memory.h:41-54 | whatever is stored on a page, the marks of used blocks stay if and only if it is not theirs |
| Stores.DataIsHarmless | kernel/process.cpp:16-80 | the frames of a live process's image, heap and stacks are no page tables, not kept back, not the kernel's own and in no other process's lists |
| Stores.GoodBufferLeadsToData | kernel/kernel.cpp:160-175 | a buffer on such pages in consecutive frames is translated right, and all its bytes lie in data of the process |
| Stores.StoreKeepsSystem | kernel/kernel.cpp:160-175 | any bytes stored into a process's data keep the whole system in order and the account of pages as it is |
| Kernels.KernelMemory.constructor | kernel/kernel.cpp:217-238 | the kernel's own directory and the template are the identity, in pages of their own; in memory the kernel's directory has every page present and writable but not the user's, the template the kernel's 8 MB alone, and it lets no user through |
| Kernels.KernelMemory.Allocate | kernel/memory.cpp:28-47 | pages nobody holds, and no page table changes in memory |
| Kernels.KernelMemory.Free | kernel/process.cpp:44-48 | each free_block of a destructor lowers the counter by exactly one and clears exactly its block |
| Kernels.KernelMemory.Map | kernel/paging.cpp:18-30 | map_physical in memory and on the books: a table is created exactly when the entry was shared, was in nobody's list, and no block mark is overwritten; the page's entry, and that of a new table, are the frame with present, writable and user and no other bit |
| Kernels.KernelMemory.Physical | kernel/paging.cpp:32-36 | what get_physical reads from memory is what the books say the directory maps |
| Kernels.KernelMemory.StoreByte | kernel/process.cpp:84 | a byte on a page that is no table and not that of the marks changes just that byte of memory and of the books |
| Processes.Process.constructor | kernel/process.cpp:16-42 | a birth on fresh pages: the list, the eight image mappings, the main thread and its stack are given outright; no process that existed notices |
| Processes.Process.LoadImage | kernel/process.cpp:30-39 | the eight image blocks are fresh, mapped from 8 MB on in order, and listed with the one table they need |
| Processes.Process.FindStack | kernel/process.cpp:56-57 | the loop ends at the highest free stack |
| Processes.FreeStack | kernel/process.cpp:56-57 | the highest free stack exists within one step more than there are stacks, and all above it are taken |
| Processes.ProbesFit | kernel/process.cpp:57 | pigeonhole: no more stacks can be found taken than are listed |
| Processes.Process.NewThread | kernel/process.cpp:50-74 | blocks, stack slot, mappings and lists of a new thread, for any free stack |
| Processes.Process.CreateThread | kernel/process.cpp:104-107 | one thread more on the highest free stack, others and heap unchanged |
| Processes.Process.ExpandHeap | kernel/process.cpp:92-102 | n consecutive pages from the old end, backed by n blocks the process did not have; whatever was mapped before still is; as many requests as pages and missing tables suffice |
| Processes.Process.TerminateThread | kernel/process.cpp:109-112 | the thread's blocks go back and its stack slot is free again; the kernel stays in order if and only if it listed no table |
| Processes.Process.Destroy | kernel/process.cpp:44-48 | the counter falls by one for the directory and each listed block |
| Processes.Process.Physical | kernel/paging.cpp:32-36 | every address of a process translates in memory by its own mapping, or to itself |
| Processes.Process.Deliver | kernel/process.cpp:83-87 | bytes for the process's own data arrive there in order, no other byte of memory changes, and process and counter stay in order |
| Processes.Process.SysAlloc | kernel/kernel.cpp:171-177 | the heap grows by n pages, and the four bytes the given address led to before hold the old end of the heap |
| WholeKernel.RunOk | kernel/kernel.cpp:38-184 | over every run of the kernel, with the bytes of reads, the answers of sys_alloc and the stores of user mode going to memory, the scheduler's invariant, the page tables of all live processes and the account of all pages hold together, and every byte a process still waits for will go to its own data; programs are asked to use buffers of their own and no thread to end on a stack a read waits into |
| WholeKernel.BootOk | kernel/kernel.cpp:256-261 | from any sound kernel without processes, four births make a state where runs start |
| WholeKernel.DeliveryKeeps | kernel/process.cpp:82-90 | what a read or a key delivers arrives byte by byte from the buffer's first address on, or where the last bytes ended, and no other byte of memory or other reader's target changes; all of it, and what is still wanted up to the end of the buffer, is in the reader's data |
| WholeKernel.SysAllocKeeps | kernel/kernel.cpp:171-177 | n pages of growth and the store of the answer keep everything in order; the caller finds the old end of the heap where it asked for it |
| WholeKernel.UserStoreKeeps | kernel/process.cpp:30-39 | a store of user mode to its image, heap or live stack changes that one byte and keeps everything in order |
| WholeKernel.StoreTarget | kernel/process.cpp:30-74 | user mode may write all data of its process, by the bits of both entries, and what it writes there arrives in the process's data |
| WholeKernel.MainStartsOnImage | kernel/process.cpp:41 | the address the main thread starts at is the first of the image, which user mode reaches on a block of the process |
| WholeKernel.ChangeIsPossible | kernel/kernel.cpp:138-150 | the indices always name a live process and thread, what changes is the current one, and a thread that ends alone is never the main one |
| WholeKernel.StaysLinked | kernel/kernel.cpp:138-184 | scheduler and memory list the same processes and threads, in the same order |
| Scheduling.RunOk | kernel/kernel.cpp:38-56 | over every run both indices stay in range, the idle process stays last and runnable, every process keeps its main thread first, and is blocked exactly while it waits with nothing pending |
| Scheduling.BootOk | kernel/kernel.cpp:256-261 | the system starts in such a state because the idle process is created last |
| Scheduling.FirstUnblocked | kernel/kernel.cpp:44-48 | the next unblocked process, everything before it blocked |
| Scheduling.NextIsNearest | kernel/kernel.cpp:44-48 | by indices, whether the current process is blocked or not: the process taken is the one and only that is not blocked while all strictly between, going round, are |
| Scheduling.SwitchDispatches | kernel/kernel.cpp:41-49 | a switch goes to the next thread of the same process, or else to the first thread of that nearest process |
| Scheduling.DispatchesBlocked | kernel/kernel.cpp:41-49 | a blocked process is dispatched if and only if it is the current one and has threads left in this round |
| Scheduling.BlockedRunsOut | kernel/kernel.cpp:41-49 | a blocked current process runs its remaining threads, one a tick, and then an unblocked process follows |
| Scheduling.SuccessorMayRunBlocked | kernel/kernel.cpp:280-284 | after a process ends a blocked one runs if and only if it is the next in the list and has a thread behind the old index |
| Scheduling.BlockedProcessRuns | kernel/kernel.cpp:41-49 | from the boot state three events lead to a blocked process being dispatched |
| Scheduling.SuccessorRunsBlocked | kernel/kernel.cpp:280-284 | from there four more end the first process, and the blocked one runs in its place |
| Scheduling.ThreadEndSkipsNext | kernel/kernel.cpp:146-149 | when a thread ends all others stay in order, but the one behind it is passed over in this round |
| Scheduling.ThreadIsPassedOver | kernel/kernel.cpp:146-149 | from the boot state five events after which a thread has lost its turn |
| Scheduling.TickMoves | kernel/kernel.cpp:41-49 | a tick goes to the next thread of the round of unblocked processes, from the last to the first |
| Scheduling.RoundRobin | kernel/kernel.cpp:41-49 | after as many ticks as unblocked processes have threads the indices are back, and each of those threads has run exactly once |
| Scheduling.EveryProcessGetsItsInput | kernel/kernel.cpp:93-169 | over every run of the whole system, what each process was given and has pending is what was submitted on its terminal, even as list positions shift |
| Scheduling.StepFollow | kernel/kernel.cpp:138-169 | an event reaches the input of one process only, and processes that move up in the list keep theirs |
| Scheduling.Scheduler.constructor | kernel/kernel.cpp:256-261 | the programs at sectors 1, 9 and 17 and then the idle process, each with its main thread at 8 MB, none blocked |
| Scheduling.Scheduler.TaskSwitch | kernel/kernel.cpp:38-56 | to the next thread of the same process, or else to the first thread of the nearest process, going round, that is not blocked, all strictly between being blocked; panic exactly when there is no process |
| Scheduling.Scheduler.TimerHandler | kernel/kernel.cpp:58-74 | a switch in that sense that never panics and changes no process |
| Scheduling.Scheduler.PageFaultHandler | kernel/kernel.cpp:76-89 | a fault of a thread takes exactly its process off the list and then switches; a fault of the kernel is a panic |
| Scheduling.Scheduler.SysExit | kernel/kernel.cpp:138-150 | the main thread takes exactly its process along, another thread only itself; all else stays, and then comes a switch |
| Scheduling.Scheduler.SysRead | kernel/kernel.cpp:160-169 | the caller's input state changes as by one read, everything else stays, and then comes a switch |
| Scheduling.Scheduler.SysThread | kernel/kernel.cpp:179-184 | one thread more at the end of the caller's list, at the given entry and not a main thread; everything else stays and there is no switch |
| Scheduling.Scheduler.KeyboardHandler | kernel/kernel.cpp:114-120 | a key changes the input of the active terminal's process only, and nothing before the first thread runs |
| Console.NothingLost | kernel/terminal.cpp:103-129 | over any interleaving of keys and reads, delivered bytes followed by pending ones are the submitted lines with backspaces applied, in order, none lost or twice; blocked exactly while bytes are wanted and none pending |
| Console.FlushKeeps | kernel/process.cpp:82-90 | a flush moves bytes without losing or reordering any |
| Console.DeliveredCount | kernel/kernel.cpp:160-166 | everything asked for is delivered or still wanted if and only if no read was issued while another waited |
| Console.SecondReadOverwrites | kernel/kernel.cpp:163-165 | two reads of five bytes leave five wanted, not ten |
| Console.UserSeesLine | kernel/terminal.cpp:94-129 | the unfinished line stands right before the cursor as long as nothing else writes and no Backspace has met the corner |
| Console.KeysTakeLineBack | kernel/terminal.cpp:94-113 | a line typed while a read waits can be taken back with the keyboard if and only if it ends no more than 23 rows below the row it began in |
| Console.FullScreenIsLost | kernel/terminal.cpp:94-99 | on a new terminal 1920 characters typed and taken back leave the screen, 1919 do not |
| Console.KeyIsSeen | kernel/terminal.cpp:103-129 | cell by cell what each key does to the page, and where the next character goes |
| Console.Channel.FlushInputBuffer | kernel/process.cpp:82-90 | the bytes land one after the other at the read pointer and nowhere else; the process wakes exactly when nothing is wanted any more |
| Console.Channel.SysRead | kernel/kernel.cpp:160-166 | pending bytes are delivered at once to the new buffer |
| Console.Channel.KeyboardEvent | kernel/terminal.cpp:103-129 | line, pending bytes, delivery and echo of one key event; a released key and keys nobody waits for change nothing; Enter leaves every cell and goes to the start of the next row, Backspace blanks the last cell or, with nothing to take back, does nothing, a letter changes its one cell; only an accepted Backspace has to find its character on the screen |
| Console.Channel.Submit | kernel/terminal.cpp:116-119 | the line moves whole and in order behind what was pending, with a newline |
| Terminals.TypedShows | kernel/terminal.cpp:33-43 | a character that does not reach row 24 keeps the text equal to the window of the unbounded page |
| Terminals.ScrolledShows | kernel/terminal.cpp:45-50 | a scroll moves the window down one row, row 24 is blank again and the cursor in row 23 |
| Terminals.CornerStopsBackspace | kernel/terminal.cpp:94-101 | the last character can be taken back if and only if the cursor is not in the upper left corner |
| Terminals.TypedLineCanBeErased | kernel/terminal.cpp:94-113 | a typed line can be taken back whole if and only if it ends no more than 23 rows below the row it began in |
| Terminals.TypedAndErased | kernel/terminal.cpp:94-128 | typing a line and taking it back restores the position and leaves blanks where it stood |
| Terminals.Terminal.constructor | kernel/terminal.cpp:9-18 | an empty page, not active |
| Terminals.Terminal.Write | kernel/terminal.cpp:31-55 | rows 0 to 23 are the window of an unbounded rendering of everything written, row 24 blank, cursor inside; video memory and cursor mirror it while active and stay untouched otherwise |
| Terminals.Terminal.WriteChar | kernel/terminal.cpp:34-53 | the same for one character; the cursor goes one on, or to the start of the next row, of row 23 once it is there |
| Terminals.Terminal.WriteInteger | kernel/terminal.cpp:57-61 | what int_to_ascii prints of the number, taken as signed, appears on the page, for every 32-bit value |
| Terminals.Terminal.Refresh | kernel/terminal.cpp:20-29 | all 2000 cells, colours and the cursor reach the hardware exactly when active |
| Terminals.Terminal.Clear | kernel/terminal.cpp:63-67 | all 2000 characters and all cells of the page are blank, the cursor and the position stay, the mirror holds |
| Terminals.Terminal.SetActive | kernel/terminal.cpp:79-82 | the hardware shows this terminal |
| Terminals.Terminal.Backspace | kernel/terminal.cpp:94-101 | the last cell is blank again, the cursor one back, the mirror kept |
| Terminals.Screen.SetCursorAt | drivers/vga.cpp:21-27 | the two register bytes make up the offset |
| Terminals.TerminalList.Next | kernel/kernel.cpp:106-112 | exactly one terminal is active, the next in the round, and the screen shows its text as it was left |
| Terminals.TerminalList.WriteTo | kernel/kernel.cpp:152-158 | writing to one terminal changes no other page, and the screen only if it is the active one |
| Buffers.MemoryCopy | kernel/util.cpp:4-7 | the range is copied intact unless it moves up within one buffer, where the result repeats with the distance |
| Buffers.CopyIsShift | kernel/util.cpp:4-7 | a copy within one buffer is a correct shift if and only if it goes down or the range was periodic already |
| Buffers.ArrayList.Add | libcpp/array_list.h:48-59 | the sequence gains the element at its end, with room to spare after every call |
| Buffers.ArrayList.Remove | libcpp/array_list.h:84-90 | exactly the element at the index goes; nothing happens when there is none |
| Buffers.ArrayList.Find | libcpp/array_list.h:75-81 | the first index of the value, -1 exactly when it is not there |
| Buffers.ArrayList.Contains | libcpp/array_list.h:66-72 | whether the value is in the list |
| Buffers.KString.FromChars | libcpp/string.cpp:88-94 | the characters before the first zero |
| Buffers.KString.Copy | libcpp/string.cpp:48-52 | the same characters in a buffer of its own |
| Buffers.KString.Append | libcpp/string.cpp:74-86 | concatenation, also of a string with itself, terminated and with room to spare |
| Buffers.KString.PopChar | libcpp/string.cpp:23-27 | the last character leaves |
| Buffers.KString.PeekChar | libcpp/string.cpp:29-34 | despite its name the first character leaves, the rest moves up |
| Digits.SignedReadsBack | kernel/util.cpp:17-30 | reading the output back gives the number, and there is no leading zero |
| Digits.PrintedReadsBack | kernel/util.cpp:17-30 | the output reads back as the number if and only if it is not the most negative one |
| Digits.TwelveBytes | kernel/terminal.cpp:58 | twelve bytes always suffice for number, sign and terminator, and eleven do not |
| Digits.IntToAscii | kernel/util.cpp:17-30 | the buffer holds the decimal numeral of every number but the most negative, which prints as a sign and a bracket |
| Digits.Reverse | kernel/util.cpp:32-39 | the text before the terminator is mirrored, everything from the terminator on stays |
| Digits.StrLen | kernel/util.cpp:42-46 | the number of characters before the first zero |

## Left out

- Boot code, assembly stubs, port I/O, disk reads, interrupt controller and timer set-up, loading of page directories and entry to user mode: hardware effects, steps without a state of their own here.
- GDT, IDT, interrupt registration, the system call table and the saving of registers: field copying.
- The scancode table: the character of a key is any byte, zero for Enter and Backspace and never a newline.
- `linked_list`: the process list is a sequence; its nodes are not modelled.
- The contents of a program image: only its blocks and their mapping are.
- `active_terminal_process_index` when a process ends: it is not adjusted and compared with `==`, so it can leave the list; terminals are switched over a fixed list, and keys to the terminal of a process that has ended are not modelled.
- Exhausted memory in `map_physical`, `expand_heap` and the constructors of processes and threads: the code does not check for NULL there, so the model asks that these requests can be met.
- A heap that reaches the stacks: excluded by preconditions.
- Runs that go on after a thread with a page table of its own has ended: the page tables are then out of order.
- Freeing NULL or a pointer that never was one: a precondition.
- `get_best_region`, the file system stub and the user programs: too small.
- 32-bit overflow of string lengths, list sizes and cursor coordinates: unbounded integers stand for them.
- Addresses of pages in process lists are kept as page numbers; the bytes of the kernel heap live in an array of their own.
- Page tables and directories are copied word by word, not byte by byte.
- The input buffers in `Console` are sequences; `Buffers.KString` shows that the code's string behaves like one.
- A list of processes in the scheduler holds values, so a process is updated by replacing it.
- Exit codes and messages written by `sys_exit` and the page fault handler: output only.
- Processes.Process.constructor: does not model the program that is loaded nor the registers of the main thread, because nothing else depends on them.
- BlockAllocator.Memory.constructor: asks for a region that the constructor divides exactly; what it does with any other is in the lemmas of `Partition`.
- Scheduling.Scheduler.SysRead: says nothing of where the bytes are stored, because that is in `Processes.Process.Deliver` and `WholeKernel.RunOk`.
- Stores of the kernel into its own heap, and user programs that store through stale mappings: outside the runs of `WholeKernel`.
- Kernels.KernelMemory.Map: says nothing for more than 32768 data blocks, because the code then overwrites its own marks of used blocks; the same holds for all of `Kernels` and `Processes`.
- Buffers.ArrayList.constructor: a capacity of zero is excluded, because the first element would lie outside the buffer.
