# Model of LOS, a teaching kernel

LOS is a small kernel for 32-bit x86 machines. This project models the parts of it whose correctness depends on
many functions together, and proves what they promise:

- **File system** (`Sectors`, `Volumes`, `FileIO`, `BlockCounts`, `FileAppend`, `DirEntries`, `DirViews`, `DirStates`,
  `Directories`, `NameTree`, `FsStates`, `InodeOps`, `FreshDirs`, `OpStates`, `FsOps`, `InodeRecords`, `InodeCache`,
  `Mounts`, `FsIdeal`, `FsDecided`, `FsCalls`, `FsOutcomes`, `FsRuns`, `FsOverflow`, `FsHeld`, `DirListing`, `Format`,
  `Formatting`). The disk is a map from sector number to 512 bytes. Appending to and reading from files through direct and indirect blocks refines a byte
  sequence. Directories are slots in sectors and refine a set of entries. The inode table lies on the same disk and
  is written back at the end of each call. `FsRuns.Execute` carries out any sequence of create, append, mkdir,
  unlink and rmdir on paths. `FsDecided.Decided` says for every call, from the state before it, whether it succeeds,
  is refused or breaks something. As long as no call breaks anything, no block is shared, the bitmap is exact, the
  inode table agrees, and the whole refines a tree of names with a byte string for every file.
- **Paths** (`Paths`, `Namespace`, `NamespaceOps`, `PathOps`). Path splitting, path cleaning, path search and the working
  directory's path, and the four calls that create and remove names, in terms of what every other path finds.
- **Memory** (`Bitmap`, `Mmu`, `Paging`, `AddressSpaces`, `PageAllocator`, `HeapStates`, `HeapProofs`, `ArenaHeap`,
  `KernelHeap`). First-fit bitmaps, the page tables edited through the directory's self-map, the page allocator on
  top of them and the arena heap on top of that.
- **Concurrency** (`IntrusiveList`, `Queues`, `Scheduler`, `SchedRuns`, `Locks`, `LockRuns`,
  `ProcessTree`, `ProcessRuns`, `DiskChannel`). The linked lists,
  the scheduler, reentrant locks interrupted between any two assignments, fork, exit and wait, and the disk
  channel. Protocols are step relations, and the theorems are about all states of all runs.

Objects the kernel changes in place are classes whose methods are proved against functions on values. Statements
about whole runs are lemmas about those functions, and for the file system the contract of a method that carries the
run out. `dafny verify dfyconfig.toml` checks everything.

## Where the code and its intent part

The model follows the code. Where the code does not keep a property its callers rely on, a lemma gives the exact
condition under which it does:

- A search for several bits looks at one bit behind the map: `BitRuns.OneBitBehind`, `BitRuns.RunLeavesMap`. In the
  page allocator this makes a half-finished request possible: `PageProofs.PartialExactly`,
  `PageProofs.PartialReached`. After one, heap and page allocator no longer agree: `KernelHeap.Heaps.Malloc`,
  `KernelHeap.HalfDone`.
- Directory entries 0 and 0x300 of the boot directory share a page table, so mapping a page in the kernel's first
  four megabytes also maps its mirror: `AddressSpaces.BootMirror`, `AddressSpaces.MirrorOfHeapStart`.
- An append that runs out of blocks takes every block that was free and gives none back: the contract of
  `FileAppend.FileWrite`.
- An append to exactly 71680 bytes passes the size check and stops at a later one, and a read that reaches block 139
  stops: the contracts of `FileAppend.FileWrite` and `FileIO.FileRead`.
- An inode is written back to the record whose number is cut to eight bits. The inode table therefore agrees after
  creating a file or directory exactly when its number is below 256: `InodeCacheProofs.SyncAgrees`,
  `FsCalls.CallCreate`, `FsCalls.CallMkdir`; a run that gets there: `FsOverflow.Reach256`.
- Writing an inode back at the end of an append needs two sectors of buffer exactly when the record crosses a sector
  boundary, and the buffer has one; the second sector is written over the memory behind it:
  `InodeCacheProofs.AppendBuffer`.
- An entry that goes to a fresh directory block is stored twice, and removing such an entry stops the kernel:
  `Directories.SyncDirEntry`, `Directories.DeleteDirEntry`, `Directories.InsertThenDelete`. A listing shows such an
  entry twice, and every entry once exactly when the directory has none: `Directories.ListDir`,
  `DirListing.ListedOnce`.
- A mkdir that finds no block for the parent's entry loses a block: `FsOps.Mkdir`, `FsOps.LostBlockUnsound`.
- Removing an empty directory by its own "." leaves its name behind: `FsOps.DirRemove`, `FsOps.OrphanBreaks`.
- Opening an existing file leaves the directory it was found in open for good, unless the search never left the root:
  `FsCalls.OpenFile`, `FsDecided.ListSame`. A directory can be removed while it is open, and a copy of its inode
  then stays in memory: `FsCalls.CallRmdir`. Along a run this happens exactly when the directory was open at the
  start or a file was opened in it since: `FsRuns.OpenInRun`, `FsRuns.HeldInRun`; a run of five calls that gets
  there: `FsHeld.HeldRun`.
- Process numbers have sixteen bits. The fork after number 0x7fff gives out a negative one and breaks the invariant of
  the process tree: `ProcessProofs.ForkExactly`.
- Cleaning a path overruns a buffer, for a path that fits its own, exactly when one of its names has 16 characters or
  more: `Paths.WashPath`, `Paths.WashRoom`.
- A regular file ends a path search even if names follow, so cleaning a path may change what it finds:
  `NamespaceProofs.WashedFile`, `NamespaceProofs.WashedLost`.
- Formatting clears the bit of the block behind the last, and with fewer than eight blocks that of the root's:
  `Format.FormatBlockBitmap`, `Format.BlockBehindTheLast`, `Formatting.FormatPartition`.
- A child handed to init while it already hangs does not wake init: `ProcessRuns.MissStep`, `ProcessRuns.MissRun`,
  `ProcessRuns.MissReached`.

## Model

| member | source | states |
|---|---|---|
| `Bitmap.BitMap.Scan` | lib/kernel/bitmap.c:23-66 | The answer is the least start of `cnt` consecutive clear bits, or -1 exactly when there is no such run, although whole 0xff bytes are skipped and the rest is counted incrementally; for `cnt` above 1 the searched bits include the one behind the map |
| `BitRuns.OneBitBehind` | lib/kernel/bitmap.c:47-53 | Looking one bit past the end changes the answer exactly when the map has no fit and its last `cnt - 1` bits and the bit behind it are clear |
| `BitRuns.RunLeavesMap` | lib/kernel/bitmap.c:47-53 | A concrete map for which the search hands out a run that leaves the map |
| `BitRuns.TakeThenGiveBack` | lib/kernel/bitmap.c:69-81 | Setting a run that was found and clearing it again restores the map |
| `Bitmap.BitMap.Set` | lib/kernel/bitmap.c:69-81 | Exactly one bit of the map changes, whichever byte it shares |
| `Bitmap.BitMap.ScanTest` | lib/kernel/bitmap.c:13-20 | Reads the bit with that number, lowest bit of the lowest byte first |
| `IntrusiveList.List.constructor` | lib/kernel/list.c:4-9 | A new list is well linked and empty |
| `IntrusiveList.List.InsertBefore` | lib/kernel/list.c:11-23 | The sequence of elements gains the element at that place, links in both directions stay consistent and no element appears twice |
| `IntrusiveList.List.Push` | lib/kernel/list.c:25-27 | The element becomes the first |
| `IntrusiveList.List.Append` | lib/kernel/list.c:29-31 | The element becomes the last |
| `IntrusiveList.List.Remove` | lib/kernel/list.c:33-40 | The sequence loses exactly that element, whose own links stay as they were |
| `IntrusiveList.List.Pop` | lib/kernel/list.c:42-46 | Returns and removes the first element |
| `IntrusiveList.List.Find` | lib/kernel/list.c:49-57 | Answers whether the element is in the sequence |
| `IntrusiveList.List.Length` | lib/kernel/list.c:75-82 | Counts the elements |
| `IntrusiveList.List.Empty` | lib/kernel/list.c:84-84 | Answers whether there is no element between the sentinels |
| `Mmu.Window` | kernel/losmemory.c:119-132 | With the last directory entry pointing back at the directory, a two-level walk of `pde_ptr(v)` reaches the directory entry of `v`, and a walk of `pte_ptr(v)` is possible exactly when that entry is present and then reaches the page-table entry of `v` |
| `Paging.AddExact` | kernel/losmemory.c:163-173 | Mapping `v` makes its walk give the new frame, keeps the self-map, and changes the walk of another page exactly when that page uses the same page-table entry; programs may write the new page exactly if the directory entry lets them, and their rights to unaliased pages stay |
| `Paging.AddTableExact` | kernel/losmemory.c:163-186 | Mapping `v` through a fresh page table maps `v` and the table's own page in the window and leaves every other walk unchanged; programs may write the new page |
| `Paging.AddThenRemove` | kernel/losmemory.c:163-193 | Removing the mapping just added restores the walk of every address |
| `Paging.EntryWritten` | kernel/losmemory.c:163-193 | Writing a page-table entry changes the entry seen by the pages that share it and by no others |
| `AddressSpaces.PageTables.PageTableAdd` | kernel/losmemory.c:163-186 | Through virtual addresses alone the code has exactly the effect of the two cases above; it refuses exactly when the page is already mapped |
| `AddressSpaces.PageTables.PageTableRemove` | kernel/losmemory.c:189-193 | Clears the present bit of exactly the entry of that page |
| `AddressSpaces.PageTables.AddrV2P` | kernel/losmemory.c:343-349 | For mapped addresses the answer is what the hardware walk gives |
| `AddressSpaces.BootMirror` | boot/loader.S:260-299 | In the boot directory two pages share an entry exactly when one lies in the first four megabytes and the other mirrors it at the start of the kernel's gigabyte; hence the exact set of pages `page_table_add` disturbs |
| `AddressSpaces.MirrorOfHeapStart` | boot/loader.S:260-273 | Mapping the kernel's first heap page also maps address one megabyte: the claim that no other address below 0xffc00000 changes fails here |
| `AddressSpaces.NewProcess` | userprog/process.c:54-73 | A new directory has the self-map, shows the kernel exactly as its creator sees it and maps nothing below the kernel |
| `AddressSpaces.KernelShared` | userprog/process.c:54-73 | A kernel page mapped in one address space is mapped to the same frame in every other |
| `PageAllocator.PageAllocator.MallocPage` | kernel/losmemory.c:214-239 | The outcome is decided by first fit and the number of free frames: refused, nothing, a run mapped to frames that were free with everything else unchanged, or a half-finished run that breaks the agreement of bitmaps and page table. The page tables in memory, edited through their window, say what the map from pages to frames says; the check that a page is not yet entered passes; it stops exactly for none or for 3840 pages and more, and finds nothing exactly when no run is clear. The frames of a run are the lowest that were free, in ascending order |
| `PageAllocator.PageAllocator.MfreePage` | kernel/losmemory.c:242-287 | The run, its frames and its bits are given back and nothing else; set bits, mapped pages, page tables in memory and used frames agree again |
| `PageAllocator.PageAllocator.UnmapPage` | kernel/losmemory.c:242-283 | The physical address read back through the window is page-aligned, above the first page table and in the pool, and gives the frame the page was mapped to; the page leaves the page tables and no other does |
| `PageAllocator.PageAllocator.constructor` | kernel/losmemory.c:43-84 | A new pool and a new range agree with page tables that map nothing of the range |
| `PageAllocator.PageAllocator.TableFrame` | kernel/losmemory.c:173-176 | A frame for a page table is a free one, is mapped nowhere, and everything else stays |
| `PageMaps.AddBacked` | kernel/losmemory.c:163-173 | Writing the entry of one page of a range keeps page tables and map in step: that page is now mapped to the frame, all others as before |
| `PageMaps.RemoveBacked` | kernel/losmemory.c:189-193 | Clearing the present bit of one page of a range keeps page tables and map in step |
| `PageMaps.BootRange` | boot/loader.S:260-299 | In the boot directory all page tables of the kernel's heap range exist and no two pages of the range share an entry, in spite of the mirror of the first four megabytes |
| `PageAllocator.PageAllocator.VaddrGet` | kernel/losmemory.c:87-117 | Takes exactly the first run of that many free virtual pages |
| `PageAllocator.PageAllocator.Palloc` | kernel/losmemory.c:134-143 | Takes the first free frame; fails exactly when there is none |
| `PageAllocator.TakeThenRelease` | kernel/losmemory.c:214-287 | Releasing a run restores bitmaps, mapping and owners exactly, whichever frames it had been given |
| `PageAllocator.MappedConsistent` | kernel/losmemory.c:214-239 | Bitmaps and page table agree after a request exactly when the whole run was mapped |
| `PageProofs.PartialExactly` | kernel/losmemory.c:43-84 | A request that found a run is left half done only if it asks for more pages than there are free frames, and for at most as many as there are free frames, frames with page tables, and one if the bit behind the map is clear. While no frame holds a page table it is left half done exactly when that bit is clear and it asks for one page more than there are free frames, which then are all pages left |
| `PageProofs.PagesLeft` | kernel/losmemory.c:43-84 | The virtual pages left are the frames left, the frames with page tables, and one if the bit behind the map is clear |
| `PageProofs.PartialReached` | kernel/losmemory.c:214-239 | Eight frames, all free, and a request for nine pages: it is left half done |
| `PageProofs.PartialBehindTables` | kernel/losmemory.c:214-239 | It is possible with the bit behind the map set as well, once a frame holds a page table |
| `Bitmap.FirstFit` | lib/kernel/bitmap.c:23-66 | First fit on a sequence of bits, as the page maps and the partition's maps use it |
| `ArenaHeap.Arenas.SysMalloc` | kernel/losmemory.c:392-489 | Which pointer, refusal or stop a request gets, in terms of the free lists and the run of pages obtained for it; the pointer was not in use and the heap invariant is kept. More than 1024 bytes get the shortest run that holds them and a header; a smaller request takes the first block of the list of the smallest size that fits, filled first with the blocks of a new page in order if it was empty |
| `ArenaHeap.Arenas.SysFree` | kernel/losmemory.c:492-531 | Exactly that pointer leaves use and the heap invariant is kept. A block joins the end of its list. An arena is given up exactly when no block of it is in use any more; its blocks leave the list and all others keep their order |
| `KernelHeap.Heaps.Malloc` | kernel/losmemory.c:392-489 | With the page allocator underneath, what both answer is decided by the free lists, the first fit and the number of free frames. A run is never one the heap already has, every page of the heap stays mapped, and the rest of the allocator stays as it was. Heap and allocator agree afterwards exactly when the allocator has not left the request half done; then the caller gets no pointer. The conditions of `KernelHeap.LargeAnswer` and `KernelHeap.SmallAnswer` hold of every answer |
| `KernelHeap.HalfDone` | kernel/losmemory.c:214-239 | A request is left half done exactly when it needs pages, a run of virtual pages is clear for them, and there are fewer free frames than pages |
| `KernelHeap.LargeAnswer` | kernel/losmemory.c:392-449 | With `n` the smallest number of pages that hold a request of more than 1024 bytes: it stops exactly from 3840 on; below, with enough free frames, it is refused exactly when no run of `n` virtual pages is clear, and with too few it is refused |
| `KernelHeap.SmallAnswer` | kernel/losmemory.c:392-489 | Any other request is refused exactly when it asks for nothing or for more than the pool, or has neither a free block of its size nor a page and a frame for more of them |
| `KernelHeap.Heaps.Free` | kernel/losmemory.c:492-531 | An arena given up goes back to the page allocator, whose pages it had; the rest of the allocator stays as it was |
| `KernelHeap.EverythingBack` | kernel/losmemory.c:392-531 | When everything has been freed, in any order, both bitmaps, every mapping and every owner are exactly as before the first request |
| `KernelHeap.Session` | kernel/losmemory.c:392-531 | Any sequence of requests and releases, carried out, and everything still held given back at the end: both bitmaps, every mapping and every owner are as at the start. The sequence is cut short only by a request that the page allocator leaves half done |
| `KernelHeap.FreeAll` | kernel/losmemory.c:492-531 | Giving back every pointer held, in the order of the list, gives back every page |
| `KernelHeap.RunIsFresh` | kernel/losmemory.c:214-239 | A run of clear virtual pages is not the heap's |
| `ArenaHeap.Arenas.Split` | kernel/losmemory.c:451-478 | A new arena's blocks all join the free list, none of them being there before |
| `ArenaHeap.Arenas.Sweep` | kernel/losmemory.c:518-527 | Every block of an idle arena is found in the free list and unlinked, and the page is given up |
| `ArenaHeap.Arenas.FindDescriptor` | kernel/losmemory.c:441-447 | Finds the smallest of the seven sizes that is large enough |
| `ArenaHeap.LiveDisjoint` | kernel/losmemory.c:392-531 | Memory handed out to two callers never overlaps |
| `ArenaHeap.LiveBesideFree` | kernel/losmemory.c:392-531 | Memory handed out meets no free block, whose first bytes link the free list |
| `ArenaHeap.LiveBesideHeaders` | kernel/losmemory.c:355-389 | Memory handed out meets the header of no arena |
| `ArenaHeap.FreeBesideHeaders` | kernel/losmemory.c:355-389 | Free blocks meet the header of no arena |
| `ArenaHeap.FreeDisjoint` | kernel/losmemory.c:451-478 | Two free blocks, of the same list or of different ones, do not overlap |
| `ArenaHeap.FitsIn` | kernel/losmemory.c:381-389 | What is handed out is as large as asked for, lies inside pages of its arena and behind the arena header |
| `ArenaHeap.AllFreed` | kernel/losmemory.c:492-531 | When everything has been freed, in any order, no page is kept and every free list is empty |
| `ArenaHeap.CountBound` | kernel/losmemory.c:514-518 | An arena never counts more free blocks than it has |
| `HeapProofs.IdleArena` | kernel/losmemory.c:518-524 | When the count reaches the number of blocks, every block is in the free list, so the search for it succeeds, and none is in use |
| `HeapProofs.TakeOk` | kernel/losmemory.c:480-487 | Handing out the head of a free list keeps counts, lists and pointers in use consistent |
| `HeapProofs.ReturnOk` | kernel/losmemory.c:514-518 | Taking a block back keeps counts, lists and pointers in use consistent, and it was not free before |
| `HeapProofs.GrowOk` | kernel/losmemory.c:451-478 | Carving up a page keeps counts, lists and pointers in use consistent |
| `HeapProofs.TakeRunOk` | kernel/losmemory.c:422-439 | Handing out a run of pages keeps arenas apart and everything else as it was |
| `HeapProofs.FreeRunOk` | kernel/losmemory.c:512-513 | Giving a run of pages back keeps the rest of the heap as it was |
| `HeapProofs.SweptOk` | kernel/losmemory.c:518-527 | Giving up an idle arena keeps the rest of the heap as it was |
| `HeapProofs.BlockInside` | kernel/losmemory.c:381-389 | A block lies in its page behind the header, so masking its address finds the header |
| `SchedRuns.RunInv` | thread/thread.c:121-195 | In every state of every run exactly one thread is running, the ready list is duplicate-free and exactly the ready threads, every tag is in at most one list, and the idle thread is ready, running or blocked outside all queues; threads may block in a semaphore queue or outside all queues |
| `SchedRuns.DispatchBound` | thread/thread.c:121-148 | A ready thread at position `k` runs before the number of scheduler calls exceeds `k` plus the number of wake-ups that were put in front |
| `SchedRuns.StepMoves` | thread/thread.c:121-186 | In every step a ready thread is dispatched or moves up by one per scheduler call and down by one per wake-up |
| `SchedRuns.SliceEnds` | device/time.c:28-41 | A thread keeps the processor for as many ticks as it has left and no longer, and then goes behind all others with a full slice |
| `SchedRuns.TicksAccount` | device/time.c:28-41 | Over any part of any run: the ticks a thread has left are those it had, less the timer interrupts that found it running, and more a slice for every one that ended; yielding, blocking and waking cost and give nothing |
| `SchedRuns.FirstSlice` | thread/thread.c:57-102 | The first slice of a new thread is as long as its priority |
| `SchedRuns.StartsLast` | thread/thread.c:90-102 | A new thread is last in both lists |
| `SchedRuns.WaitsInTurn` | thread/sync.c:16-49 | In every run a thread with `p` others before it in a queue stays in it for `p` wake-ups and moves up by one with each |
| `SchedRuns.TurnComes` | thread/sync.c:34-49 | The wake-up after those wakes it, to the front of the ready list |
| `SchedRuns.StepStatus` | thread/thread.c:121-186 | The status every step leaves every thread with that does not run after it |
| `SchedProofs.IdleBlocked` | thread/thread.c:136-139 | An empty ready list met while choosing means that the idle thread is blocked, so waking it passes its check |
| `SchedProofs.DispatchInv` | thread/thread.c:136-147 | Choosing the next thread from a state in which nobody runs restores the invariant |
| `SchedProofs.WakeInv` | thread/sync.c:34-43 | The head of a semaphore queue is blocked and not ready, so waking it passes its checks, and the invariant is kept |
| `SchedProofs.QueueInv` | thread/sync.c:19-25 | The thread that blocks is in no queue yet, so the check passes, and the invariant is kept |
| `SchedRuns.BootInv` | thread/thread.c:320-329 | The state the kernel starts in satisfies the invariant |
| `SchedRuns.Scheduler.Schedule` | thread/thread.c:121-148 | Puts a running caller at the end with a full slice, then runs the head of the ready list; none of its checks fails |
| `SchedRuns.Scheduler.ThreadBlock` | thread/thread.c:150-161 | The caller stops for that reason and the next thread runs |
| `SchedRuns.Scheduler.ThreadUnblock` | thread/thread.c:163-176 | The thread becomes ready, in front of all others |
| `SchedRuns.Scheduler.ThreadYield` | thread/thread.c:178-186 | The caller goes to the end of the ready list and the next thread runs |
| `SchedRuns.Scheduler.TimerHandler` | device/time.c:28-41 | Takes a tick off the slice, or ends it |
| `SchedRuns.Scheduler.ThreadStart` | thread/thread.c:90-102 | A new thread joins both lists, in neither of which it was |
| `SchedRuns.Scheduler.ThreadExit` | thread/thread.c:270-299 | The thread leaves both lists and the invariant is kept |
| `LockRuns.RunInv` | thread/sync.c:10-76 | For any number of locks and threads, interrupted between any two assignments, every reachable state satisfies the lock invariant |
| `LockRuns.MutualExclusion` | thread/sync.c:51-76 | At most one thread owns a lock; the holder field names nobody or the owner; inside, it names the owner and the nesting count is the owner's depth |
| `LockRuns.NoCheckFails` | thread/sync.c:16-76 | No check in the semaphore and lock code ever fails |
| `LockRuns.NoLostWakeup` | thread/sync.c:16-49 | While somebody sleeps on a lock, somebody owns it or somebody already woken is about to test it again |
| `LockRuns.SleepsBehindOthers` | thread/sync.c:19-28 | A thread that tries for the first time, or again after being woken, gets the lock exactly if nobody has it; otherwise it sleeps, last in the queue |
| `LockRuns.FirstAsleepFirstWoken` | thread/sync.c:16-49 | In every run: while a thread that fell asleep on a lock earlier has not been woken, no step wakes one that fell asleep later |
| `LockRuns.WokenInTurn` | thread/sync.c:34-49 | A sleeper with `p` others before it sleeps exactly as long as the lock has been given back at most `p` times |
| `LockRuns.TurnComes` | thread/sync.c:34-49 | The release after those wakes it |
| `LockRuns.DepthIsBalance` | thread/sync.c:51-76 | In every state of every run a thread is as deep in a lock as it has begun to acquire it more often than to release it |
| `LockProofs.StepInv` | thread/sync.c:16-76 | Every single step of every thread keeps the lock invariant |
| `LockProofs.ChecksHold` | thread/sync.c:16-76 | In a state that satisfies the invariant every check a thread is about to make succeeds |
| `LockProofs.NotMyName` | thread/sync.c:51-54 | A thread that does not own the lock never reads its own name in the holder field |
| `ProcessRuns.RunInv` | userprog/wait_exit.c:69-158 | From boot with init and any kernel threads on, in every state reachable while numbers last, each parent is nobody or a listed task that is neither exiting nor hanging, and each waiting task has a child, none of which hangs unless the task is init; forks may fail after their child was numbered |
| `ProcessRuns.ParentFound` | userprog/wait_exit.c:150-154 | Looking up the parent at the end of an exit never fails |
| `ProcessRuns.NoMissedExit` | userprog/wait_exit.c:100-134 | No task but init sleeps in a wait while one of its children hangs |
| `ProcessRuns.MissStep` | userprog/wait_exit.c:90-158 | For every step of fork, exit and wait: init sleeps over a hanging child afterwards exactly when this step hands one over to it in its sleep, or it did before and no child of init has just ended its exit |
| `ProcessRuns.MissRun` | userprog/wait_exit.c:90-158 | In every state of every run: init sleeps over a hanging child exactly when some exit has handed one over in its sleep and no child of init has ended its exit since |
| `ProcessRuns.MissEnds` | userprog/wait_exit.c:100-158 | The exit that wakes init ends it: its next look finds a hanging child |
| `ProcessRuns.MissReached` | userprog/wait_exit.c:90-158 | A run from boot in which it happens: init waits, a great-grandchild exits, then the grandchild that never waited for it |
| `ProcessRuns.ReapedOnce` | userprog/wait_exit.c:100-134 | No child is returned by two waits |
| `ProcessRuns.ReapsOldest` | userprog/wait_exit.c:100-134 | In every state of every run: a wait reaps the oldest hanging child if there is one, fails exactly without children and otherwise blocks |
| `ProcessRuns.RunAscending` | thread/thread.c:90-102 | The list of all tasks stays in the order of their numbers |
| `ProcessRuns.StepDoesRight` | userprog/wait_exit.c:90-158 | What every step of fork, exit and wait does to the parent, phase and status of every task |
| `ProcessRuns.WaitReturnsStatus` | userprog/wait_exit.c:105-121 | The status a wait returns is the low eight bits, read as a signed number, of what the child passed to its exit |
| `ProcessRuns.KeptUntilReaped` | userprog/wait_exit.c:137-158 | From its exit until it is reaped a task keeps that status |
| `ProcessRuns.NeverAgain` | thread/thread.c:46-52 | A number whose task is gone, or that a failed fork took, is not given out again as long as numbers do not wrap, that is up to 0x7fff |
| `ProcessRuns.Processes.Fork` | userprog/fork.c:147-200 | A new task with the next number and the caller as parent joins the list; if memory runs out after the child was numbered, the number is lost and nothing else changes |
| `ProcessProofs.ForkExactly` | thread/thread.c:46-54 | With sixteen-bit numbers a fork keeps the invariant of the process tree exactly while the last number is below 0x7fff; the next one would be -0x8000 |
| `ProcessRuns.Processes.BeginExit` | userprog/wait_exit.c:137-147 | The status is cut to eight bits and every child is handed to init |
| `ProcessRuns.Processes.Adopt` | userprog/wait_exit.c:90-96 | Walking the list hands over exactly the children of the task |
| `ProcessRuns.Processes.EndExit` | userprog/wait_exit.c:149-158 | A waiting parent is woken and the task hangs |
| `ProcessRuns.Processes.Wait` | userprog/wait_exit.c:100-134 | One turn of the loop: reaps the first hanging child in the list, or answers that there is no child, or blocks |
| `ProcessProofs.BeginInv` | userprog/wait_exit.c:137-147 | Once a task has begun to exit nobody is its child any more |
| `ChannelProofs.RunInv` | device/ide.c:73-200 | With interrupts at any time and in any number, the channel never both expects an interrupt and holds a completion; every command is signalled at most once and consumed exactly once |
| `ChannelProofs.Protocol` | device/ide.c:117-200 | No semaphore check fails, between commands nothing is left over, and a sleeper is woken by the next interrupt |
| `Transfers.IdeRead` | device/ide.c:117-150 | Reads every sector of the range exactly once and in order, whatever the number of chunks |
| `Transfers.IdeWrite` | device/ide.c:153-187 | Each sector of the range holds its part of the buffer; no other sector changes |
| `Transfers.WriteThenRead` | device/ide.c:117-187 | What was written is read back |
| `Transfers.CountMeans` | device/ide.c:81-100 | The eight-bit count register means the chunk the loop chose, 256 included |
| `InodeRecords.StoreFrame` | fs/inode.c:43-77 | Storing a record, within one sector or across two, changes its 76 bytes and no other record or sector |
| `InodeRecords.StoreByte` | fs/inode.c:16-77 | Byte by byte: what the read, splice and write-back of one or two sectors does to the table |
| `InodeRecords.INodeRoundTrip` | fs/inode.c:43-118 | A record decodes to the number, size and block addresses that were encoded |
| `InodeRecords.RecordLayout` | fs/inode.h:7-16 | A record of 76 bytes: number, size, and from the fifth word on the thirteen addresses |
| `InodeCacheProofs.RunAgrees` | fs/inode.c:43-154 | After any run of opening, changing, writing back and closing whose every step is safe, opening an inode gives the value it was last given, whether from memory or from the disk |
| `InodeCacheProofs.StepExact` | fs/inode.c:43-154 | Each operation keeps memory, disk and latest values in agreement exactly when it is safe: opening and changing always, writing back and closing under the two conditions below |
| `InodeCacheProofs.SyncExact` | fs/inode.c:43-77 | An inode written back reads back exactly when its number is below 256 or it had not changed; a larger number destroys another inode's record |
| `InodeCacheProofs.AppendBuffer` | fs/file.c:423-423 | When an append writes its inode back through a buffer of one sector, memory behind the buffer stays as it is if the record lies within one sector; otherwise the 512 bytes behind become what the record's second sector comes to hold. Which it is depends on the record's number alone |
| `InodeCacheProofs.FirstOverflow` | fs/file.c:423-423 | Inode 6 is the first for which it does |
| `InodeCacheProofs.OpenAgrees` | fs/inode.c:80-118 | Opening gives the latest value and counts one more opener |
| `InodeCacheProofs.CloseAgrees` | fs/inode.c:137-154 | Closing counts one opener less, and keeps the agreement exactly when it is not the last close or the inode is on the disk |
| `InodeCacheProofs.SyncAgrees` | fs/inode.c:43-77 | Writing back keeps the agreement exactly when the number is below 256, or the inode was on the disk already and the inode whose record is overwritten is open and ahead of the disk |
| `InodeCacheProofs.InodeStore.InodeOpen` | fs/inode.c:80-118 | Shares the copy in memory, or reads the record and puts the copy in front |
| `InodeCacheProofs.InodeStore.InodeClose` | fs/inode.c:137-154 | Counts down and drops the copy with the last opener |
| `InodeCacheProofs.InodeStore.InodeSync` | fs/inode.c:43-77 | Writes the record at the number cut to eight bits |
| `InodeCacheProofs.InodeStore.InodeDelete` | fs/inode.c:173-195 | Clears exactly that record |
| `InodeCacheProofs.DeleteLoads` | fs/inode.c:173-195 | Every other record stays as it was |
| `Mounts.WriteBack` | fs/inode.c:43-154 | Opening, changing, writing back and closing an inode numbered below 256 leaves all others readable as they were, the list of open inodes with the same numbers and counts, and every sector behind the table alone |
| `Mounts.SyncNew` | fs/inode.c:43-77 | A new inode written back is readable with all others exactly when its number is below 256; otherwise its record is that of the number modulo 256 |
| `Mounts.ClearRecord` | fs/inode.c:242-249 | Clearing a released inode's record leaves all others readable and the open list as it was |
| `MountProofs.TableInv` | fs/inode.c:43-77 | Writing the table changes no file, no directory, no name and no bitmap |
| `MountProofs.PlanRecords` | fs/file.c:230-427 | Writing data blocks changes no record of the table |
| `Volumes.Ownership` | fs/file.c:59-68 | In a sound partition no block is reachable from two places, and a bit of the block bitmap is set exactly when the block is reachable |
| `Volumes.Volume.BlockBitmapAlloc` | fs/file.c:59-68 | Takes the first free block; fails exactly when there is none |
| `Volumes.FindClear` | fs/file.c:59-68 | First fit for one bit |
| `FileIO.FileRead` | fs/file.c:431-532 | A position behind the end, or a sum of position and count that does not fit 32 bits, is told apart. Otherwise: at the end of the file, and only there, end of file; if the read would end at byte 71168 or behind it the kernel stops; else the bytes from the position on, as many as asked for or all that are left |
| `FileIO.ReadDetermined` | fs/file.c:431-532 | There is only one right answer to a read |
| `FileIO.ReadWhole` | fs/file.c:431-532 | Reading from the start, in pieces of any size, until the end is reported gives the whole file; the kernel stops on the way exactly when the file has 71168 bytes or more |
| `FileIO.ByteAt` | fs/file.c:509-530 | The first 6144 bytes of a file are in the twelve blocks its inode names, the others in those named by the words of the indirect table |
| `FileIO.CollectForRead` | fs/file.c:455-507 | Collects the addresses of the blocks in the range, in every combination of direct and indirect blocks |
| `FileAppend.FileWrite` | fs/file.c:230-422 | Refused exactly when size and length come to more than 71680 bytes; done exactly when they come to less and the free blocks, with those the file has, are enough for the new size. Then the file's bytes are the old ones followed by the buffer, the free blocks fall by exactly the places the file gains, no other inode is touched, no sector before the data blocks is written and the partition stays sound. Out of space, it has taken every free block. Writing the inode back is `FsCalls.CallAppend`'s part. Nothing is said if size and length do not add up in 32 bits |
| `FileAppend.BlocksMove` | fs/file.c:59-68 | If one inode alone has changed, it got its blocks from the free ones and from nowhere else |
| `BlockCounts.FreeAndOwned` | fs/file.c:59-68 | In a sound partition every block is free or kept by one inode |
| `BlockCounts.MineAreUsed` | fs/file.c:59-68 | An inode keeps one block for every place it uses |
| `BlockCounts.ShapeUses` | fs/file.c:277-380 | A file of `k` blocks uses `k` places, and one more for the indirect table beyond twelve |
| `FileAppend.AllocDirect` | fs/file.c:303-327 | Direct blocks only: succeeds exactly when enough blocks are free, and then the file owns the blocks it needs and its bytes are unchanged |
| `FileAppend.AllocAcross` | fs/file.c:328-370 | From direct into indirect blocks, with a new table |
| `FileAppend.AllocIndirect` | fs/file.c:371-394 | Further indirect blocks, with the table rewritten |
| `FileAppend.WriteData` | fs/file.c:397-422 | The bytes land in the blocks of the file one after the other |
| `FileAppend.FilledContent` | fs/file.c:399-427 | Writing the collected blocks and raising the size amounts to appending the buffer |
| `FileAppend.OthersUntouched` | fs/file.c:230-427 | If only blocks of one inode, or of nobody, change, every other inode keeps its blocks and bytes |
| `Sectors.TableRoundTrip` | fs/file.c:355-371 | An indirect table reads back as the addresses that were written |
| `FsRuns.RunBytes` | fs/file.c:230-427 | After any calls that broke nothing, a file that was there throughout holds the bytes it had followed by everything the calls appended to it, in order |
| `FsRuns.FileIsWhatWasWritten` | fs/file.c:95-427 | A file created by the first of such calls, and there since, holds exactly what was appended to it |
| `DirEntries.EntryRoundTrip` | fs/dir.c:97-105 | An entry with a name of 1 to 15 characters reads back as it was written |
| `DirEntries.EntryLayout` | fs/dir.h:17-21 | Sixteen bytes of name filled up with zeros, then the inode number and the type, low byte first |
| `DirEntries.SlotWritten` | fs/dir.c:186-206 | Writing one slot of a sector changes that slot and no other |
| `Directories.SyncDirEntry` | fs/dir.c:110-210 | The first block with room decides. The entry goes to its first free slot, or, if the block is missing and one is free, to the first two slots of a fresh one; no other slot and no other inode changes. Without a block for it nothing changes. Nothing is said if the direct blocks are all full |
| `Directories.DeleteDirEntry` | fs/dir.c:213-330 | Finds the entry exactly when the directory names the inode; its removal takes out exactly that entry, and a block left without entries; the code stops exactly when the inode is named twice in one block; every other entry stays where it was |
| `Directories.InsertThenDelete` | fs/dir.c:110-330 | An entry inserted and then deleted: the deletion stops the kernel exactly when the insertion went to a fresh block, and otherwise the directory has the contents it had |
| `Directories.SearchDirEntry` | fs/dir.c:26-84 | Finds the entry with that name, or there is none |
| `Directories.BindingUnique` | fs/dir.c:26-84 | A name is bound to at most one entry |
| `Directories.DirRead` | fs/dir.c:333-384 | Returns the entry at the position, holes and missing blocks notwithstanding, and moves on by one entry |
| `Directories.ListDir` | fs/dir.c:333-384 | Repeated reads return the live entries, in slot order, and then the end: exactly the directory's contents. An entry is returned twice exactly when the directory stores it twice, so every entry is returned once exactly when none is |
| `DirListing.ListedOnce` | fs/dir.c:333-384 | In a well-formed directory the listing repeats an entry exactly when a block names its inode twice |
| `DirListing.KeptAllRepeats` | fs/dir.c:333-384 | An entry is repeated in the listing exactly when two places of the directory hold it |
| `Directories.InsertThenList` | fs/dir.c:110-384 | Inserting and listing: the listing gains the entry at the rank of the first free place; if no free slot or missing block lies before a live entry, that is the end, and it stays so |
| `DirListing.InsertListed` | fs/dir.c:110-384 | The listing after an insertion, with the order of all others kept |
| `DirListing.ListedLast` | fs/dir.c:110-384 | In a directory without holes a new entry is listed last |
| `DirListing.NoHolesKept` | fs/dir.c:110-210 | Inserting leaves no hole |
| `FreshDirs.NewHasNoHoles` | fs/fs.c:584-600 | A new directory has no holes, so entries are listed in the order they were made until one is removed |
| `DirListing.RemoveListed` | fs/dir.c:213-330 | A removal takes the entry out of the listing and keeps the order of all others |
| `DirViews.EmptyExactly` | fs/dir.c:387-401 | The size says empty exactly when only the dots are left, and then no block but the first exists |
| `DirViews.InsertFree` | fs/dir.c:193-206 | Filling a free slot keeps the directory well formed and its size accurate |
| `DirViews.InsertFreshBlock` | fs/dir.c:139-191 | Filling a fresh block keeps the directory well formed and its size accurate |
| `DirViews.Remove` | fs/dir.c:272-324 | Clearing a slot, or dropping its block, keeps the directory well formed and its size accurate |
| `InodeOps.InodeBitmapAlloc` | fs/file.c:49-56 | Takes the first free inode number |
| `InodeOps.InodeRelease` | fs/inode.c:200-243 | Gives back every block of the inode, its indirect table and its number, and nothing else; the check that no freed block is the first never fails; its record is cleared by `Mounts.ClearRecord` |
| `InodeOps.ReleasedSound` | fs/inode.c:200-250 | After a release the partition is sound and every other inode untouched |
| `FsOps.FileCreate` | fs/file.c:95-186 | What there is no room for first decides: inode, memory, descriptor, block for the entry; otherwise the tree gains one empty file with the first free number, the entry is stored twice exactly when it went to a fresh block, and otherwise no block is taken; a failure changes nothing. Nothing is said if the parent's direct blocks are all full |
| `FsOps.Mkdir` | fs/fs.c:560-643 | Makes the directory with the first free inode and block, its entry stored twice exactly when it went to a fresh block, or changes nothing, or, exactly when no block is left for the parent's entry, loses the block taken for the dots. Nothing is said if the parent's direct blocks are all full |
| `FsOps.LostBlockUnsound` | fs/fs.c:609-613 | A lost block is marked in use and reachable from nowhere |
| `FsOps.RemoveFile` | fs/fs.c:514-517 | Takes out the entry and the inode and gives back every block of the file, unless the entry is stored twice |
| `FsOps.DirRemove` | fs/dir.c:394-415 | An empty directory has no block but the first, so the checks pass; it goes with its entry and its block, unless it was named by its own ".": then its parent still names it and the tree is broken |
| `FsOps.DirIsEmpty` | fs/dir.c:387-391 | The answer is exact |
| `FsOps.OrphanBreaks` | fs/dir.c:408-412 | Releasing a directory that its parent still names leaves a name that leads to no inode |
| `FsProofs.CreatedInv` | fs/file.c:95-186 | From what `FsOps.FileCreate` establishes about the directory, the new inode and the untouched ones, the invariant of the whole partition follows, and the tree of names gains one leaf |
| `FsProofs.MadeDirInv` | fs/fs.c:524-644 | From what `FsOps.Mkdir` establishes, the invariant of the whole partition follows, and the tree of names gains one empty directory |
| `FsProofs.UnlinkedInv` | fs/fs.c:473-521 | From what `FsOps.RemoveFile` establishes, the invariant of the whole partition follows, and the tree of names loses one leaf |
| `FsProofs.RemovedDirInv` | fs/fs.c:694-723 | From what `FsOps.DirRemove` establishes, the invariant of the whole partition follows, and the tree of names loses that directory |
| `FsProofs.AppendedInv` | fs/file.c:230-427 | From what `FileAppend.FileWrite` establishes, the invariant of the whole partition follows, and every name stays |
| `NameTreeProofs.RemoveDir` | fs/fs.c:694-723 | A tree without one of its empty directories is a tree |
| `NameTreeProofs.AddDir` | fs/fs.c:524-644 | A tree with a new directory is a tree |
| `FsCalls.CallCreate` | fs/fs.c:309-370 | Comes to what `FsDecided.Decided` says. With both inodes written back the file system has become what it is meant to be: the tree with the file, all other inodes as before, the inode table in agreement, unless the direct blocks of the directory are full or the number is above 255; with such a number, and only then, the table no longer agrees |
| `FsCalls.CallMkdir` | fs/fs.c:524-644 | The same for a directory; the other ways to break something are a lost block and, exactly for a path of slashes alone, an unset number |
| `FsCalls.CallAppend` | fs/fs.c:309-419 | Comes to what `FsDecided.Decided` says: refused exactly when no file is opened or it would get too big, done exactly when the write succeeds. The bytes of that file, and nothing else, grow by the buffer; the list of open inodes gains the file's directory unless the search never left the root |
| `FsCalls.OpenFile` | fs/fs.c:309-370 | A file is opened exactly when the path ends in its name. The directory it was found in stays open, so the list of open inodes is as before exactly when nothing was opened or the path is a single name |
| `FsDecided.ListSame` | fs/fs.c:309-370 | Opening changes the list of open inodes exactly when a file is opened by more than one name |
| `FsCalls.CallUnlink` | fs/fs.c:473-521 | The tree without the file, its bytes gone, its record cleared, all else as before; refused exactly for a missing path, a directory or a file in use; broken exactly when the entry is stored twice, the path is the root or it is slashes alone, and the first two change nothing |
| `FsCalls.CallRmdir` | fs/fs.c:694-723 | The tree without the directory, its record cleared, its blocks given back, all else as before; besides the cases in which the removal stops or leaves the name behind, it is broken exactly when the directory is open. Then the partition is still sound and its table agrees, but the open list keeps a copy of the inode as it was |
| `FsCalls.OverflowDestroys` | fs/inode.c:43-46 | A number above 255 is given out only when all numbers below 256 are in use, so the record it overwrites is that of a live inode |
| `FsOutcomes.EveryOutcome` | fs/fs.c:309-723 | For every call on every mounted partition: it is done, or refused, exactly when conditions on the tree of names, the open inodes and the free blocks, slots and numbers hold, and breaks something in all other cases; a new inode gets the least unused number |
| `FsRuns.Call` | fs/fs.c:309-723 | Every call, carried out, ends as those conditions say |
| `FsRuns.Execute` | fs/fs.c:309-723 | Any sequence of calls on paths, carried out: every outcome, that of a call that breaks something too, is the one `FsDecided.Decided` gives for the state before it. Up to such a call, the partition satisfies the invariant, no block is reachable twice, the set bits are exactly the reachable blocks, the inode table agrees, and the tree of names and the bytes of every file are what the calls so far make of the tree and the bytes at the start |
| `FsRuns.ExecuteThenRead` | fs/fs.c:309-723 | If nothing broke, a read by path at the end gives exactly the slice of what the calls have made of that file |
| `FsRuns.ReadPath` | fs/fs.c:309-440 | Opening by path and reading gives the slice of the file the path names, and finds a file exactly when the path ends in its name; the partition stays mounted, and the open list changes exactly when the file is found by more than one name |
| `FsRuns.OpenInRun` | fs/fs.c:309-370 | After any calls that broke nothing, the open inodes are those open at the start and the directories of the files opened since by more than one name |
| `FsRuns.HeldInRun` | fs/fs.c:694-723 | After such calls, removing a directory that could be removed breaks something exactly when the directory was open at the start or one of the calls has opened a file in it |
| `FsHeld.HeldRun` | fs/fs.c:309-723 | On a new partition: mkdir, create, append, unlink and rmdir succeed but the last, which removes a directory that the append has left open. The next free number is that of the copy left in memory, whose first block is free |
| `FsHeld.HeldFromScratch` | fs/fs.c:16-723 | The same from a raw disk, formatting included, for any partition of 625 sectors or more |
| `FsHeld.StaleWins` | fs/inode.c:80-107 | Opening an inode that has a copy in memory gives that copy, whatever its record on the disk holds by then |
| `FsIdeal.ReplayBytes` | fs/file.c:230-427 | In the tree and bytes the calls are meant to produce, a file that is there throughout has grown by exactly what was appended to it |
| `FsOverflow.Reach256` | fs/inode.c:43-46 | A run of 256 calls on a new partition of at least fourteen blocks in which a file is given number 256: it is written over the record of the root directory, and the inode table no longer agrees |
| `FsOverflow.Reach256FromScratch` | fs/fs.c:16-137 | The same from a raw disk, formatting included, for any partition of 625 sectors or more |
| `FsOverflow.HasRoomFor` | fs/dir.c:139-206 | A directory with fewer than 21 entries has room in its first block, so no block is taken and the entry is stored once |
| `Format.FormattedInv` | fs/fs.c:103-131 | A formatted partition satisfies the invariant |
| `Formatting.FormatPartition` | fs/fs.c:16-137 | Formatting any disk leaves the formatted partition, mounted, with its root open and its inode table in agreement, if it has at least eight blocks; with fewer, the bit of the root's block is clear and the partition is not sound |
| `Format.FormatBlockBitmap` | fs/fs.c:85-100 | Which bits of the block bitmap formatting sets: the bit behind the last block is cleared as well, and with fewer than eight blocks so is the root's |
| `Format.BlockBehindTheLast` | fs/fs.c:28-36 | The bitmap's blocks lie inside the partition; the one behind the last does exactly when the second size estimate is below the first |
| `Format.LayoutTight` | fs/fs.c:28-36 | The block bitmap has a bit for every block and no sector too many, and with the blocks fills the partition up to one sector and one more for every eight gigabytes |
| `Paths.PathParse` | fs/fs.c:199-217 | Splits off the first name; what is left has the remaining names |
| `Paths.WashPath` | shell/buildin_cmd.c:13-54 | The edits of the text amount to a stack of names: "." stays, ".." pops but not above the root, anything else pushes; the result is the text of the stack. It is reached exactly when every name, and the text after every name, fits its buffer |
| `Paths.WashRoom` | shell/buildin_cmd.c:13-54 | For a path that fits the buffer of a path, that is exactly when all its names have fewer than 16 characters: the text is never longer than the path |
| `Paths.WashIdempotent` | shell/buildin_cmd.c:13-54 | A cleaned path has no ".", ".." or empty name and is left alone by a second cleaning |
| `Paths.RenderRoundTrip` | fs/fs.c:199-236 | A path written from names splits into those names |
| `NamespaceOps.SearchFile` | fs/fs.c:241-306 | The answer is what following the names gives, including that a regular file ends the search, that a run of slashes alone leaves it unset, and what part of the path was looked at |
| `NamespaceOps.SearchNames` | fs/fs.c:258-306 | Following the names one after the other through the directories on the disk gives the same answer as following them in the tree of names |
| `Paths.MoveText` | shell/buildin_cmd.c:26-46 | One name edits the text as it moves the stack: cutting at the last slash pops, appending pushes |
| `NamespaceProofs.SearchMeans` | fs/fs.c:241-306 | A search that fails names the first missing name and the directory without it; one that succeeds names an entry on the path |
| `NamespaceProofs.WashKeepsMeaning` | shell/buildin_cmd.c:13-54 | If a path finds a directory, its cleaned form finds the same one, and is that directory's own path |
| `NamespaceProofs.SameDirectory` | shell/buildin_cmd.c:13-54 | Two paths find the same directory exactly when their cleaned forms are equal |
| `NamespaceProofs.WashedFile` | shell/buildin_cmd.c:13-54 | A path that goes on behind a file's name finds the file; its cleaned form finds the file exactly when what follows does not take the name away again, that is when the cleaned form still begins with the cleaned path to the file |
| `NamespaceProofs.WashedFileThenOne` | shell/buildin_cmd.c:13-54 | With one name behind the file, cleaning keeps what is found exactly when that name is not ".." |
| `NamespaceProofs.WashedLost` | shell/buildin_cmd.c:13-54 | A path lost at a name: its cleaned form is lost in the same directory exactly when it still goes through that directory and on to a name it does not have |
| `NamespaceProofs.FileEndsSearch` | fs/fs.c:288-291 | A regular file ends a search, whatever names follow |
| `NamespaceProofs.PathUnique` | fs/fs.c:785-830 | A directory has one path of proper names |
| `NamespaceOps.Getcwd` | fs/fs.c:785-830 | Climbing to the root by ".." and by number terminates and, turned round, yields the directory's own path, which is clean and finds the directory; it is returned exactly when it fits the kernel's buffer and the caller's |
| `NamespaceOps.EveryDirectory` | fs/fs.c:785-830 | Every directory has exactly one path, and searching for it finds the directory |
| `NamespaceOps.TurnedLength` | fs/fs.c:805-827 | A path is as long as its reverse, so one check of the length serves both buffers |
| `NamespaceOps.ParentInode` | fs/fs.c:726-737 | The second slot of the first block is the parent; both checks on it, the type and the number below 4096, pass |
| `NamespaceOps.ChildDirName` | fs/fs.c:741-780 | The slot with the child's number is the child's own entry, not a dot and not an empty slot |
| `NamespaceOps.GetcwdThenSearch` | fs/fs.c:785-848 | Searching for the path of the working directory finds the working directory, and the path is already clean |
| `NamespaceOps.SearchThenGetcwd` | fs/fs.c:785-848 | After changing to a directory by any path, the path reported is the cleaned path |
| `PathOps.SysMkdir` | fs/fs.c:524-644 | Exists, unreachable or tried, as the search says, and then what there is room for; a directory made is found by its path, and every path that found something still finds it |
| `PathOps.SysCreate` | fs/fs.c:309-370 | Every branch of opening with creation, both ways, as the search says: present exactly when the file is the last name; a file made is found by its path, and every path that found something still finds it |
| `PathOps.SysUnlink` | fs/fs.c:473-521 | The branches, as the search says; a file removed is found by no path, and every path that found something else still finds it |
| `PathOps.SysRmdir` | fs/fs.c:694-723 | The branches, as the search says; a directory removed is found by no path, every other directory keeps its own path, every search that does not come through the directory gives the same answer, and every search that does is lost |
| `PathOps.PathDepth` | fs/fs.c:220-236 | Counts the names of a path |
| `NamespaceProofs.MoreStillFound` | fs/fs.c:241-306 | New entries never change what a successful search finds |
| `NamespaceProofs.LessStillFound` | fs/fs.c:241-306 | Without one file every search that found something else finds the same |
| `NamespaceProofs.DeadUnreachable` | fs/fs.c:241-306 | No path finds an inode that is not live |

## Left out

- Boot code, interrupt entry, context switch, descriptor tables, timer and interrupt controller programming.
- Port input and output, the busy wait and its time limit: a sector transfer is a read or write of the modelled disk.
- Console, keyboard, `printk`, the shell's commands, `ps`, pipes and the ring buffers.
- ELF loading and `execv`; the contents of user memory in `fork`; release of a process's frames and page tables.
- The file table, descriptors and `write_deny`; `lseek` and `stat`; descriptors appear as the parameter `slot`, and a file in use is one in the list of open inodes.
- Writing bitmaps back to the disk: the model's bitmaps are the ones in memory.
- FileAppend.FileWrite: of an append that runs out of blocks the contract does not say which places of the inode got the blocks that are lost. If size and length do not add up in 32 bits, the size check compares a small number and nothing is promised.
- FsCalls.CallAppend: the record of the inode reaches the disk as it should; which memory lies behind the buffer of one sector is not modelled. `InodeCacheProofs.AppendBuffer` says when and with what it is overwritten.
- FsRuns.Execute: stops at the first call that breaks something, since the code does not repair it. Directories that a search opens and closes again leave the open list as it was (`Mounts.OpenCloseSame`) and are not opened explicitly; the one that opening a file leaves open is.
- Directories.SyncDirEntry: says nothing of a directory whose twelve direct blocks are full. The code then goes on to an indirect table, which it never loads again when it inserts; `FsOps.FileCreate`, `FsOps.Mkdir` and the calls pass that case on as an outcome without a promise.
- FsOps.FileCreate: says nothing if the direct blocks of the directory are full; the two inodes are written back by `FsCalls.CallCreate`.
- FsOps.Mkdir: says nothing if the direct blocks of the parent are full; the two inodes are written back by `FsCalls.CallMkdir`.
- FsOps.RemoveFile: the directory's inode is written back and the file's record cleared by `FsCalls.CallUnlink`.
- FsOps.DirRemove: the parent's inode is written back and the directory's record cleared by `FsCalls.CallRmdir`.
- InodeOps.InodeRelease: the record is cleared by `Mounts.ClearRecord`.
- NamespaceOps.SearchFile: names of 16 characters or more overflow the kernel's name buffer; the model asks for shorter ones.
- PathOps.SysMkdir: a path of several slashes and nothing else leaves the inode number unset; that outcome is told apart and nothing is promised for it.
- PathOps.SysUnlink: likewise.
- PathOps.SysRmdir: likewise.
- PageAllocator.PageAllocator.MallocPage: models one pool and a range whose page tables exist, as all of the kernel's do; the table a user range may need first is `PageAllocator.PageAllocator.TableFrame` and `Paging.AddTableExact`, apart from each other. The check on the address of the user stack is not modelled.
- ArenaHeap.Arenas.SysMalloc: takes the run of pages as a parameter; `KernelHeap.Heaps.Malloc` obtains it from the page allocator. The contents of memory are not modelled.
- ProcessRuns.RunInv: covers runs up to the last positive 16-bit number; `ProcessProofs.ForkExactly` is the step after. An exit is two steps because releasing memory may block in between.
- ProcessRuns.NeverAgain: likewise up to the last positive 16-bit number.
- KernelHeap.Session: does not go on after a request the page allocator leaves half done, since heap and allocator no longer agree.
- Paths.WashPath: says nothing of what follows an overrun buffer.
- SchedRuns.Scheduler.ThreadExit: the branch that switches to another thread at once is not modelled; no caller asks for it.
- LockRuns.RunInv: a thread releases only locks it holds, as the code demands; increments are single steps.
- InodeRecords.StoreFrame: padding bytes and the list links of a record are zeros.
