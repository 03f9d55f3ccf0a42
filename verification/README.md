# A verified model of a small x86 kernel

This project models the hard parts of a 32-bit teaching kernel in Dafny and proves what
they are for: the scheduler with its semaphores, re-entrant locks and disk interrupts; the
page allocator, address spaces and heap; fork, exit and wait; and a Unix-like file system
from the disk controller up to path names. `dafny verify dfyconfig.toml` checks all of it.

How the files fit together:

- `Basics`: what several modules share.
- `IntrusiveList`, `Bitmap`: the doubly linked lists and the bitmaps everything is built on.
- `Threads`, `ThreadSafety`, `ThreadTheorems`: one CPU, a program counter per thread,
  preemption between any two actions that run with interrupts on. The functions of `Threads`
  are the steps, and the theorems hold in every state that any run reaches.
- `ThreadEffects`, `LockRuns`: what each step and each call of the lock functions leaves
  behind, field by field.
- `ThreadQueues`, `Kernel`: the code that makes these steps. The ready list and the wait
  queues are linked lists that all run through the one link embedded in each thread.
- `Paging`: two-level page tables seen through the directory entry that points to itself.
- `Pages`, `PageSafety`, `PageCounts`, `AddressSpaces`, `PageManager`: frames, page tables and
  virtual bitmaps of the kernel and of every process, with fork and exit, and when they
  succeed. `PageManager` runs the loops of the code and is proved to leave the states that
  `Pages` defines.
- `Heap`, `HeapSafety`, `HeapReplies`, `HeapRuns`, `HeapManager`: arenas and blocks on top of
  the pages, and when there is one.
- `Processes`, `ProcessSafety`, `ProcessTheorems`, `ProcessRuns`, `ProcessTable`: fork, exit
  and wait as stretches of code that interleave, and from call to return.
- `Ide`: cutting a transfer into disk commands.
- `FileBlocks`, `FileStore`, `Files`: files as byte sequences over direct and indirect
  blocks, and which sectors each file owns.
- `Directories`, `FullDirectory`, `DirectoryStore`: directories with holes as finite maps;
  how a directory overflows; reading and searching.
- `FolderBlocks`, `Folders`, `FolderStore`: the same directories as bytes in the sectors they
  own, and the code that takes and gives back these sectors.
- `Volumes`, `FileSystem`: all files and directories of a partition together.
- `Inodes`: the inode table on disk and the list of open inodes.
- `Paths`, `Trees`, `TreeChanges`: path strings, the directory tree as maps from names, and
  what changes such maps.
- `Listings`, `InodeTrees`, `FullTree`: the tree that inode table, inode bitmap and directory
  blocks contain, mkdir, create, unlink and rmdir on them, and how the root overflows.

Where the code departs from what it is evidently meant to do, the model follows the code, a
lemma shows the failing case, and another one states the exact condition under which the
code does what it promises: `Bitmaps.ScanFailures` and `Bitmaps.ScanIsFirstFit`,
`PageSafety.CorruptsWhen`, `Paging.AddrV2PIsTheWalk`, `ProcessTheorems.InitCanOversleep` and
`ProcessTheorems.InitOversleepsByAdoption`, `Inodes.SyncThenOpen`,
`Directories.SecondTableLoses`, `Directories.InsertIsMapUpdate` and
`Directories.DeleteIsMapRemoval` with `FullDirectory.RunToFull`, a run of 251 insertions
after which the next one loses entries and a removal never ends,
`FolderStores.FolderStore.AddEntry`, which leaks the sectors of the lost entries,
`FullTree.RootOverflows`, a run of 252 calls of mkdir after which a directory is listed
nowhere, with `InodeTrees.MkdirKeeps`, `InodeTrees.CreateKeeps`, `InodeTrees.UnlinkKeeps` and
`InodeTrees.RmdirKeeps`, `TreeChanges.UnlinkIgnoresRest` and `TreeChanges.UnlinkNamed`,
`TreeChanges.RmdirDotDangles`, and the contracts of `FileStores.FileStore.FileWrite` and
`FileStores.FileStore.FileRead`.

## Model

| member | source | states |
|---|---|---|
| `ThreadTheorems.NoAssertFires` | thread/sync.c:21-85 | in no run does an ASSERT or PANIC of the scheduler, semaphores, locks or disk interrupt handler fire |
| `ThreadTheorems.BootIsInit` | thread/thread.c:416-429 | the state after start-up is one from which the theorems start |
| `ThreadTheorems.MutualExclusion` | thread/sync.c:61-85 | at most one thread is between a returned lock_acquire and its matching last lock_release; the lock names it, counts its nesting depth, and its semaphore is 0 |
| `ThreadTheorems.FreeOrOwned` | thread/sync.c:61-85 | a lock is never lost: its semaphore is 1 and its fields are clear, or exactly one thread owns it and determines the fields, also in the windows before holder is set and after it is cleared |
| `ThreadTheorems.QueuesMatchStatuses` | thread/thread.c:214-290 | exactly one thread is RUNNING, the ready list is exactly the READY threads without repetition, every wait queue exactly the threads blocked on it, no thread is on two queues, and idle is blocked whenever the ready list is empty and another thread runs |
| `ThreadTheorems.ExactQueuesAreDisjoint` | thread/sync.c:25-36 | a thread's one list element is on at most one queue |
| `ThreadTheorems.NoLostWakeup` | thread/sync.c:21-58 | while a semaphore is up and threads wait on it, a thread already popped from its queue is runnable inside sema_down's loop |
| `ThreadTheorems.CommandsPairWithInterrupts` | device/ide.c:105-109 | per channel at most one command is in flight, by the holder of the channel's lock, and every command is answered by one sema_up and one completed sema_down |
| `ThreadTheorems.InFlightOwns` | device/ide.c:150-192 | a thread waiting for a disk interrupt holds the channel's lock |
| `ThreadSafety.SwitchShape` | thread/thread.c:233-247 | schedule always finds a thread to run, because idle is blocked when nobody is ready |
| `ThreadSafety.SemaDownBlocks` | thread/sync.c:25-36 | a thread that finds the semaphore taken is queued and gives up the CPU without breaking any queue, lock or disk invariant |
| `ThreadSafety.SemaDownTakes` | thread/sync.c:37-40 | taking a lock's semaphore makes the caller the only owner |
| `ThreadSafety.SemaDownDone` | device/ide.c:173 | a completed wait for the disk consumes exactly one interrupt |
| `ThreadSafety.LockStepOk` | thread/sync.c:61-85 | every single field access of lock_acquire and lock_release keeps the invariant, with preemption allowed before and after it |
| `ThreadSafety.RelUpOk` | thread/sync.c:82-84 | the sema_up at the end of lock_release gives the lock up, and its ASSERTs hold |
| `ThreadSafety.IrqOk` | device/ide.c:331-345 | the interrupt handler's sema_up finds disk_done at 0, whatever it interrupted |
| `ThreadSafety.StepOk` | thread/thread.c:214-290 | every enabled action of every thread, and every interrupt, keeps the invariant of queues, statuses, locks, wakeups and disk commands |
| `ThreadSafety.RunOk` | thread/thread.c:214-290 | so does every run |
| `ThreadEffects.BlockEffect` | thread/thread.c:251-262 | in every state of the invariant thread_block(status) leaves the caller with exactly that status and off the ready list; the first ready thread runs, or idle if there is none; no other status, queue, lock or channel changes |
| `ThreadEffects.IdleBlockEffect` | thread/thread.c:37-45 | idle is left BLOCKED and the first ready thread runs, or idle runs on if there is none; nothing else changes |
| `ThreadEffects.YieldEffect` | thread/thread.c:282-290 | thread_yield and a tick put the caller last and run the first ready thread; nothing else changes |
| `ThreadEffects.WakeEffect` | thread/thread.c:265-279 | an unblocked thread is READY and first in the ready list; nothing else changes |
| `ThreadEffects.CreateEffect` | thread/thread.c:161-189 | a new thread is READY, outside all functions, and last in the ready list; nothing else changes |
| `ThreadEffects.ReapEffect` | thread/thread.c:364-393 | reaping takes exactly that thread away |
| `ThreadEffects.ExitEffect` | thread/thread.c:364-393 | a thread that ends is gone, and the first ready thread or idle runs |
| `LockRuns.AcquireFree` | thread/sync.c:61-71 | a free lock is taken without waiting; it then names the caller, is counted once, and its semaphore is 0; nothing else changes |
| `LockRuns.AcquireAgain` | thread/sync.c:61-71 | the holder gets the lock again without waiting, one level deeper |
| `LockRuns.AcquireTaken` | thread/sync.c:61-71 | a caller of a lock that another thread has is blocked, last in its wait queue, and the first ready thread or idle runs |
| `LockRuns.ReleaseNested` | thread/sync.c:74-85 | a nested release goes one level up and keeps the lock |
| `LockRuns.ReleaseLast` | thread/sync.c:74-85 | the last release clears the lock and its semaphore is 1; the first waiter, if any, leaves the wait queue and is first in the ready list |
| `LockRuns.ReleaseUndoesAcquire` | thread/sync.c:61-85 | acquiring and releasing restores the whole state: at any depth for a holder, and otherwise for a free lock without waiters |
| `LockRuns.CommandAnswered` | device/ide.c:150-192 | a command whose interrupt comes before the wait: one more command, interrupt and completed wait, and nothing else changes |
| `ThreadQueues.Queues.constructor` | thread/sync.c:8-18 | a link for every thread, and empty lists with sentinels of their own |
| `ThreadQueues.Queues.OthersApart` | lib/kernel/list.c:14-49 | the nodes that an operation on one queue may relink are on no other queue, although all queues run through the same links |
| `ThreadQueues.Queues.Push` | lib/kernel/list.c:32-34 | the thread is first in that queue; every list stays well formed in both directions and every other queue is as before |
| `ThreadQueues.Queues.Append` | lib/kernel/list.c:37-39 | the thread is last in that queue; every list stays well formed and every other queue is as before |
| `ThreadQueues.Queues.Pop` | lib/kernel/list.c:52-56 | the first thread of that queue, found through its link, is taken off; every list stays well formed and every other queue is as before |
| `ThreadQueues.Queues.Find` | lib/kernel/list.c:59-68 | a walk along the links finds the thread exactly if it is on that queue |
| `Kernels.AlwaysReady` | thread/thread.c:214-290 | in every state of the invariant the code below may be entered where the step system enters it |
| `Kernels.Kernel.ThreadUnblock` | thread/thread.c:265-279 | on linked lists: the thread is READY and first in the ready list, nothing else changes, all lists stay well formed and the ASSERTs hold |
| `Kernels.Kernel.ScheduleNext` | thread/thread.c:214-248 | on linked lists makes exactly the scheduling step; all lists stay well formed and its ASSERTs hold |
| `Kernels.Kernel.ThreadBlock` | thread/thread.c:251-262 | on linked lists: the caller is left with exactly the status asked for, the first ready thread or idle runs, nothing else changes, and the ASSERT holds |
| `Kernels.Kernel.ThreadYield` | thread/thread.c:282-290 | on linked lists: the caller is last and the first ready thread runs, nothing else changes, and the ASSERT holds |
| `Kernels.Kernel.Up` | thread/sync.c:44-58 | moves the first waiter's link from the wait queue to the front of the ready list: exactly the sema_up step; all lists stay well formed and its ASSERTs hold |
| `Kernels.Kernel.DownPass` | thread/sync.c:21-41 | on linked lists makes exactly one pass of sema_down's loop; a thread that blocks has its one link on the wait queue; its ASSERTs hold |
| `Kernels.Kernel.DiskHandler` | device/ide.c:331-345 | makes exactly the interrupt step on linked lists |
| `Kernels.Kernel.LockFields` | thread/sync.c:61-85 | makes exactly the steps on a lock's own fields, and their ASSERTs hold |
| `IntrusiveLists.List.constructor` | lib/kernel/list.c:6-11 | an empty list |
| `IntrusiveLists.List.InsertBefore` | lib/kernel/list.c:14-29 | the sequence with the element inserted at that place, in both link directions |
| `IntrusiveLists.List.Push` | lib/kernel/list.c:32-34 | the element in front of the sequence |
| `IntrusiveLists.List.Append` | lib/kernel/list.c:37-39 | the element behind the sequence |
| `IntrusiveLists.List.Remove` | lib/kernel/list.c:42-49 | the sequence without that element, in both link directions |
| `IntrusiveLists.List.Pop` | lib/kernel/list.c:52-56 | returns the first element and leaves the rest |
| `IntrusiveLists.List.Empty` | lib/kernel/list.c:102-104 | whether the sequence is empty |
| `IntrusiveLists.List.Find` | lib/kernel/list.c:59-68 | whether the element is in the sequence |
| `IntrusiveLists.List.Traverse` | lib/kernel/list.c:74-88 | the first element that satisfies the callback, NULL exactly if none does |
| `IntrusiveLists.List.Length` | lib/kernel/list.c:91-99 | the length of the sequence |
| `IntrusiveLists.MoveFirst` | lib/kernel/list.c:42-56 | moving an element from one list to another that shares its links keeps both lists intact |
| `Bitmaps.Bitmap.constructor` | lib/kernel/bitmap.c:16-18 | clears exactly the bits of the bitmap |
| `Bitmaps.Bitmap.Test` | lib/kernel/bitmap.c:23-27 | the value of one bit |
| `Bitmaps.Bitmap.Set` | lib/kernel/bitmap.c:79-91 | changes one bit and no other |
| `Bitmaps.Bitmap.ScanFor` | lib/kernel/bitmap.c:32-76 | computes the scan as a function of the bits, including the bit behind the bitmap that it reads |
| `Bitmaps.Bitmap.ScanRun` | lib/kernel/bitmap.c:54-75 | the lowest run of clear bits in what it reads, or that there is none |
| `Bitmaps.ScanIsFirstFit` | lib/kernel/bitmap.c:32-76 | the scan is first fit within the bitmap exactly unless no bit is clear, when an ASSERT fires, or the only run uses the bit behind the bitmap |
| `Bitmaps.ScanFailures` | lib/kernel/bitmap.c:32-76 | concrete bitmaps on which it panics and on which it returns a run that leaves the bitmap |
| `Paging.PtePtrReachesEntry` | kernel/memory.c:103-111 | for every address and every self-mapped directory, the hardware walk of pte_ptr(v) reaches the entry that translates v, and faults exactly when v has no page table |
| `Paging.PdePtrReachesEntry` | kernel/memory.c:118-122 | the walk of pde_ptr(v) reaches the directory entry of v |
| `Paging.AddrV2PIsTheWalk` | kernel/memory.c:279-285 | addr_v2p is the hardware translation exactly when the table entry is present or there is no table |
| `Paging.CreatePageDir` | userprog/process.c:97-117 | the kernel half is shared, the user half empty, and the last entry points to the directory itself |
| `Paging.KernelHalfShared` | userprog/process.c:97-117 | every kernel address below the self-map translates in the new directory as in the old one |
| `PageSafety.PallocOk` | kernel/memory.c:126-135 | the frame taken was in use by nobody |
| `PageSafety.TableAddOk` | kernel/memory.c:138-173 | maps exactly one page, creating the page table if it is missing, and fails exactly when that is impossible |
| `PageSafety.GetPageOk` | kernel/memory.c:227-260 | get_a_page maps exactly the page it is given, which was not in use, and keeps the invariant |
| `PageSafety.CorruptsWhen` | kernel/memory.c:66-83 | an allocation writes outside the virtual bitmap exactly when the scan overruns it |
| `PageCounts.AddPagesWhen` | kernel/memory.c:192-199 | the mapping loop ends well exactly when the pools have a frame for every page and for every missing page table, and takes exactly these |
| `PageCounts.MallocWhen` | kernel/memory.c:176-201 | malloc_page gives pages exactly when the first fit lies in the bitmap, starts below the last page for a process, and frames for pages and missing tables are free, and takes exactly these; NULL exactly when a page is unused but no run is found; a write outside exactly when the only run needs the bit behind the bitmap; an ASSERT otherwise |
| `PageCounts.GetPageWhen` | kernel/memory.c:227-260 | get_a_page succeeds exactly for an unused page of the bitmap, for the kernel not its first, when frames for it and a missing table are free; writes outside exactly for a page outside the bitmap; an ASSERT otherwise |
| `PageSafety.MallocOk` | kernel/memory.c:176-201 | maps the lowest run of unused pages, leaves every other mapping of every space alone, and keeps the invariant of frames and bitmaps |
| `PageSafety.MfreeOk` | kernel/memory.c:465-518 | releasing mapped pages keeps the invariant |
| `PageSafety.FreeUndoesMalloc` | kernel/memory.c:465-518 | freeing what was allocated restores virtual bitmap, mappings and user pool; the kernel pool keeps exactly the page tables that had to be created |
| `Pages.DropKeepsTables` | kernel/memory.c:465-518 | mfree_page removes exactly the mappings of its pages and keeps page tables and other spaces |
| `AddressSpaces.ForkOk` | userprog/fork.c:75-112 | the child has the parent's pages at the same addresses with the same bytes on frames nobody used, and nothing else changes |
| `PageCounts.ForkWhen` | userprog/fork.c:75-112 | fork copies the address space exactly when the user pool has as many free frames as the parent has pages and the kernel pool as many as these need page tables, and takes exactly these |
| `AddressSpaces.CopyStep` | userprog/fork.c:91-103 | one page of the copy |
| `AddressSpaces.WalkFindsAll` | userprog/wait_exit.c:37-62 | the walk over the page tables meets exactly the frames of the process |
| `AddressSpaces.ExitOk` | userprog/wait_exit.c:37-62 | exit returns exactly the process's page and table frames to their pools |
| `AddressSpaces.ExitUndoesFork` | userprog/wait_exit.c:37-62 | fork followed by the child's exit restores both pools and every mapping |
| `AddressSpaces.SpawnOk` | userprog/process.c:120-145 | a process started with an empty user half and a clear virtual bitmap keeps the invariant |
| `AddressSpaces.ProcessesAppear` | userprog/process.c:129-145 | from start-up a process can be started, can fork, and its child can exit; given two frames in either pool, also with its stack page |
| `AddressSpaces.EveryRunKeepsPages` | kernel/memory.c:66-260 | over every run from start-up of starting processes, get_a_page, allocation, release, fork and exit, in which no ASSERT fires and no scan overruns its bitmap (see CorruptsWhen), no two pages share a frame, no page's frame is a page table, frames come from their pools, and a bit is set exactly when its page or frame is in use |
| `PageManagers.PageManager.Mark` | kernel/memory.c:74-77 | sets exactly the bits of a run of virtual pages |
| `PageManagers.PageManager.Allocate` | kernel/memory.c:176-201 | the loops of malloc_page and vaddr_get compute the specified allocation |
| `PageManagers.PageManager.MapPages` | kernel/memory.c:192-199 | the mapping loop |
| `PageManagers.PageManager.Release` | kernel/memory.c:447-518 | the loops of mfree_page and vaddr_remove compute the specified release |
| `PageManagers.PageManager.CopyBody` | userprog/fork.c:75-112 | the loops over bytes and bits copy exactly the pages in use |
| `PageManagers.PageManager.ReleaseTable` | userprog/wait_exit.c:46-57 | the inner loop of the walk at exit |
| `PageManagers.PageManager.ReleaseTables` | userprog/wait_exit.c:37-62 | the whole walk frees what is specified |
| `Heaps.BlockLayout` | kernel/memory.c:299-308 | the blocks of an arena tile its page behind the header, and masking an address finds its arena |
| `Heaps.ClassFor` | kernel/memory.c:369-374 | the smallest block size that fits |
| `HeapSafety.PopLive` | kernel/memory.c:406-411 | the block taken off the free list is the only one that becomes live, and has the size of its class |
| `HeapSafety.MallocHands` | kernel/memory.c:319-417 | sys_malloc returns a block that was not live, large enough, and leaves all live blocks and their sizes alone |
| `HeapReplies.MallocReplies` | kernel/memory.c:319-417 | sys_malloc gives a block exactly for a size within the pool when a free block of the smallest sufficient size is there or the pages needed can be allocated; NULL exactly for other sizes or when no run of pages is found |
| `HeapReplies.MallocGives` | kernel/memory.c:346-413 | the block given is the first free one of its size; or the first of a new arena in the lowest unused page, whose other blocks become free; or, above 1024 bytes, the least number of pages that holds the request behind a header |
| `HeapSafety.FreeKeeps` | kernel/memory.c:521-561 | sys_free of a live block keeps lists, counts and placement of arenas |
| `HeapSafety.FreeReleases` | kernel/memory.c:521-561 | sys_free takes exactly that block out of the live blocks |
| `HeapSafety.PageGoesWithLastBlock` | kernel/memory.c:546-555 | an arena's page is given back exactly when its last live block is freed |
| `HeapSafety.HasLive` | kernel/memory.c:546-555 | between calls every arena has a live block |
| `HeapSafety.FullArena` | kernel/memory.c:547-553 | when the count reaches blocks_per_arena, every block of the arena is in the free list |
| `HeapSafety.LiveInside` | kernel/memory.c:319-417 | a live block lies in mapped pages behind its arena's header |
| `HeapSafety.LiveDisjoint` | kernel/memory.c:319-417 | two live blocks never overlap |
| `HeapRuns.FreshHeap` | kernel/memory.c:630-645 | the heap starts in a good state |
| `HeapRuns.StepKeeps` | kernel/memory.c:319-561 | no request, return or other use of the pages takes a heap out of the good states |
| `HeapRuns.EveryRunKeepsBlocks` | kernel/memory.c:319-561 | over every run of sys_malloc and sys_free, mixed with other users of the pages, with new processes, forks and exits, live blocks are disjoint, mapped, and on frames of their own |
| `HeapRuns.EveryRunAccounts` | kernel/memory.c:319-561 | after every such run a block is live if and only if sys_malloc returned it and sys_free has not taken it back, and it has at least the size requested |
| `HeapRuns.FreeUndoesMallocBlock` | kernel/memory.c:521-561 | freeing what sys_malloc returned restores arenas, free blocks and, but for new page tables, the pages |
| `HeapManagers.HeapManager.constructor` | kernel/memory.c:630-645 | no block is live |
| `HeapManagers.HeapManager.Request` | kernel/memory.c:319-417 | computes the specified allocation, with its NULL returns |
| `HeapManagers.HeapManager.FindClass` | kernel/memory.c:369-374 | the loop over the sizes |
| `HeapManagers.HeapManager.Carve` | kernel/memory.c:388-403 | splits a page into all its blocks in order; none was in the list before |
| `HeapManagers.HeapManager.Return` | kernel/memory.c:521-561 | computes the specified release |
| `HeapManagers.HeapManager.Withdraw` | kernel/memory.c:547-553 | every block of a free arena is in the list, and leaves it |
| `HeapManagers.BlockDescInit` | kernel/memory.c:630-645 | seven sizes from 16 to 1024, and how many of each fit into a page |
| `Processes.Int8` | thread/thread.h:144 | the exit status is cut to a signed byte |
| `Processes.FirstChild` | userprog/wait_exit.c:89-106 | the traversal finds a child, or a hanging one, exactly if there is one |
| `ProcessSafety.StepOk` | userprog/wait_exit.c:120-174 | every stretch of fork, exit and wait keeps the invariant; it panics exactly when no pid is left or a process without a parent exits |
| `ProcessTheorems.StopsOnlyWhenFatal` | userprog/wait_exit.c:153-174 | in every run sys_exit finds its parent and no list ASSERT fires |
| `ProcessTheorems.PidsAccountedFor` | thread/thread.c:78-92 | registered pids are distinct, and a pid's bit is set exactly while it is registered, on its way in or out, or lost in a failed fork |
| `ProcessTheorems.ParentsExist` | userprog/wait_exit.c:110-116 | every parent is -1 or a registered process that has not begun to exit |
| `ProcessTheorems.NobodyOversleeps` | userprog/wait_exit.c:120-150 | no process but init sleeps in sys_wait while a child is ready to be reaped, or without a child |
| `ProcessTheorems.InitOversleepsByAdoption` | userprog/wait_exit.c:110-116 | init begins to do so exactly when it adopts a child that has already exited while it waits |
| `ProcessTheorems.InitCanOversleep` | userprog/wait_exit.c:110-174 | a run from start-up in which that happens |
| `ProcessTheorems.DeliveredOnce` | userprog/wait_exit.c:120-150 | no exit status is delivered twice, and each one delivered was given to exit before |
| `ProcessTheorems.DeliveredToParent` | userprog/wait_exit.c:120-150 | every status delivered in a run was delivered by a wait at some point of the run, to the process that was the parent of the exited one at that point, with the status that one had left |
| `ProcessTheorems.NoStatusIsLost` | userprog/wait_exit.c:120-174 | a process that exited and was not reaped is still registered with the status it gave |
| `ProcessRuns.WaitUndoesFork` | userprog/wait_exit.c:120-174 | in every state of the invariant fork, exit of the child and wait run through and restore the whole state, pid and lists included; the parent gets the low byte of the value |
| `ProcessRuns.WaitUndoesForkAsleep` | userprog/wait_exit.c:120-174 | so they do when the parent waits first: it sleeps, and the exit wakes it |
| `ProcessRuns.OrphansGoToInit` | userprog/wait_exit.c:153-161 | exit hands exactly the children of the caller to init and keeps the low byte of the value |
| `ProcessTables.ProcessTable.Traverse` | lib/kernel/list.c:74-88 | the traversal in list order |
| `ProcessTables.ProcessTable.Adopt` | userprog/wait_exit.c:110-116 | all children of a process, and no others, become init's |
| `ProcessTables.ProcessTable.BeginExit` | userprog/wait_exit.c:153-161 | makes exactly the first step of sys_exit |
| `ProcessTables.ProcessTable.EndExit` | userprog/wait_exit.c:166-173 | makes exactly the last step of sys_exit |
| `ProcessTables.ProcessTable.WaitOnce` | userprog/wait_exit.c:123-149 | one iteration of sys_wait: reaps a hanging child exactly if there is one, fails exactly without children |
| `Ide.SelectMeans` | device/ide.c:87-121 | the controller acts on the sectors the driver means, 256 of them for a count register of 0 |
| `Ide.Drive.Read` | device/ide.c:150-192 | every requested sector once, in order; an ASSERT rejects exactly requests that are empty or have a command starting behind the disk |
| `Ide.Drive.Write` | device/ide.c:195-234 | the requested sectors are written and no others |
| `FileBlocks.DecodeEncode` | fs/file.c:373 | an indirect table read back is the table written |
| `FileBlocks.TakeBlock` | fs/file.c:65-73 | a block taken was nobody's and is never the root directory's |
| `FileBlocks.ChunkAppends` | fs/file.c:411-433 | splicing bytes in at the end of a file appends them |
| `FileStores.FileStore.AllocBlock` | fs/file.c:65-73 | takes one free block, and fails exactly when none is left |
| `FileStores.FileStore.FirstBlock` | fs/file.c:268-280 | a file that was never written gets its first block |
| `FileStores.FileStore.Reserve` | fs/file.c:282-397 | all four cases of block collection leave the addresses of the blocks to be written, taking exactly the missing blocks and the indirect table when it is first needed |
| `FileStores.FileStore.Extend` | fs/file.c:316-334 | the allocation loops |
| `FileStores.FileStore.NewTable` | fs/file.c:343-349 | a sector for the indirect table |
| `FileStores.FileStore.LoadTable` | fs/file.c:303 | the indirect table in memory |
| `FileStores.FileStore.StoreTable` | fs/file.c:373 | the indirect table on disk |
| `FileStores.FileStore.WriteChunk` | fs/file.c:412-432 | one round of the copying loop |
| `FileStores.FileStore.WriteBytes` | fs/file.c:400-433 | the bytes are appended, no other sector changes, and the position is the last byte |
| `FileStores.FileStore.FileWrite` | fs/file.c:246-438 | appends the data and touches no sector of anybody else; it fails exactly when size and length, added in 32 bits, exceed 71680; it succeeds exactly below 71680 bytes when enough blocks are free, and otherwise stops at an ASSERT, or runs off its tables exactly when the sum wraps to at most 71680 |
| `FileStores.FileStore.Gather` | fs/file.c:473-512 | the addresses of the blocks to be read |
| `FileStores.FileStore.ReadBytes` | fs/file.c:515-533 | the copying loop of file_read |
| `FileStores.FileStore.FileRead` | fs/file.c:442-537 | for every position and count of 32 bits: the bytes from the position on, up to the end; -1 exactly at the end; an ASSERT stops it exactly when the read begins or ends in the last block of the largest file; it copies more than the file has only when the position is behind the end or position and count wrap |
| `FileStores.FileStore.FreeBlock` | fs/inode.c:209-212 | gives back one sector, never the root directory's |
| `FileStores.FileStore.FreeAll` | fs/inode.c:205-215 | the freeing loop |
| `FileStores.FileStore.Release` | fs/inode.c:179-215 | exactly the blocks and the table of the file become free |
| `Files.OtherBytes` | fs/file.c:246-438 | an operation on one file leaves the bytes of every other file alone |
| `Files.TouchKeeps` | fs/file.c:246-438 | and keeps every sector with one owner and the bitmap exact |
| `Files.DeleteKeeps` | fs/inode.c:179-231 | so does deleting a file |
| `Files.CreateKeeps` | fs/inode.c:234-250 | so does creating one |
| `FolderBlocks.DecodeEncodeEntry` | fs/dir.h:19-23 | a directory entry survives being stored in its 24 bytes |
| `FolderBlocks.PatchBlock` | fs/dir.c:215-226 | writing 24 bytes changes one entry of a block and no other |
| `Folders.NewDirect` | fs/dir.c:156-169 | a free sector becomes a direct block: the directory owns it at one position, and every sector still has one owner |
| `Folders.NewTable` | fs/dir.c:170-194 | a table and its first block replace what was behind the direct blocks; exactly the sectors of an older table stay marked without an owner |
| `Folders.LeakBreaks` | fs/dir.c:170-194 | marked sectors that nothing reaches violate ownership |
| `Folders.FreeDirect` | fs/dir.c:305-313 | a direct block given back is the only sector that becomes free |
| `FolderStores.FolderStore.AddEntry` | fs/dir.c:128-235 | on sectors and bitmap, with the two allocations at the table: inserts as the map model says, writes only sectors of the directory, succeeds exactly when enough blocks are free, and keeps single ownership if and only if a direct block has room or there is no table yet |
| `FolderStores.FolderStore.AddTable` | fs/dir.c:170-208 | the branch for a missing table: exactly the sectors behind the old table are lost |
| `FolderStores.FolderStore.DeleteEntry` | fs/dir.c:244-356 | on sectors and bitmap: deletes as the map model says, never ends exactly when that says so, and otherwise keeps single ownership; the ASSERT that the entry is found once holds |
| `FolderStores.FolderStore.Locate` | fs/dir.c:266-300 | the loops over blocks and entries find the block and slot that the deletion changes |
| `FolderStores.FolderStore.Collect` | fs/dir.c:248-255 | the block addresses in memory are those on disk |
| `FolderStores.FolderStore.Make` | fs/fs.c:641-671 | a new directory owns one sector, which holds its two dots |
| `FolderStores.FolderStore.Release` | fs/inode.c:179-215 | exactly the sectors of the directory become free |
| `Volumes.ChangeKeeps` | fs/dir.c:128-356 | a change of one directory keeps every sector of the partition with one owner, the bytes of every file and the entries of every other directory |
| `Volumes.VanishKeeps` | fs/inode.c:179-231 | so does removing a directory |
| `Volumes.FileStepKeeps` | fs/file.c:246-438 | so does every operation on a file |
| `Volumes.EveryRunKeepsVolume` | fs/dir.c:128-356 | over every run of creating, appending to and deleting files, making and removing directories, and inserting and deleting entries where these end without loss, every sector has exactly one owner position or its bit is clear, each file holds what was appended to it, and each directory the entries put into it and not taken out |
| `FileSystems.FileSystem.constructor` | fs/fs.c:90-213 | a formatted partition, whose root holds its two dots, is in a good state |
| `FileSystems.FileSystem.Create` | fs/inode.c:234-250 | a new file is empty |
| `FileSystems.FileSystem.Append` | fs/file.c:246-438 | file_write is one appending step of the whole partition, with the exact conditions of its other ends |
| `FileSystems.FileSystem.Read` | fs/file.c:442-537 | file_read returns a slice of the file's bytes |
| `FileSystems.FileSystem.Delete` | fs/inode.c:179-231 | inode_release is one deleting step of the whole partition |
| `FileSystems.FileSystem.AddEntry` | fs/dir.c:128-235 | sync_dir_entry leaves a good partition if and only if the directory can take the entry, and then is one inserting step |
| `FileSystems.FileSystem.DeleteEntry` | fs/dir.c:244-356 | delete_dir_entry never ends exactly when the entry is alone in an indirect block, and otherwise is one deleting step |
| `FileSystems.FileSystem.MakeDir` | fs/fs.c:641-671 | one step that makes a directory, unless no block is free |
| `FileSystems.FileSystem.RemoveDir` | fs/fs.c:763-789 | one step that removes a directory |
| `Inodes.Locate` | fs/inode.c:23-43 | the slot of an inode, inside the table, and whether it straddles two sectors |
| `Inodes.OtherSlots` | fs/inode.c:23-43 | inode slots do not overlap |
| `Inodes.RestoreSave` | fs/inode.c:61-65 | the fields of an inode survive being stored |
| `Inodes.Sync` | fs/inode.c:51-81 | writes exactly the slot selected by the low eight bits of the number, in one or two sectors; number, size and block addresses in it are the inode's, open count, write denial and list links are clear |
| `Inodes.Load` | fs/inode.c:98-119 | reads exactly the slot of the inode |
| `Inodes.SyncThenOpen` | fs/inode.c:51-128 | number, size and block addresses that were synced are read back, with clear open count, denial and links, and no other inode changes, exactly for numbers below 256 |
| `Inodes.OpenInodes.Open` | fs/inode.c:84-128 | all who have an inode open share one object, whose count is the number of opens not yet closed |
| `Inodes.OpenInodes.Find` | fs/inode.c:86-95 | the search of the list of open inodes |
| `Inodes.OpenInodes.Close` | fs/inode.c:132-146 | the last close, and only that, takes the inode off the list |
| `Directories.InsertKeeps` | fs/dir.c:128-235 | inserting keeps names and inodes unique, the dots in the first block and the size equal to the entries |
| `Directories.InsertIsMapUpdate` | fs/dir.c:128-235 | inserting is a map update exactly when a direct block has room or there is no indirect table yet |
| `Directories.SecondTableLoses` | fs/dir.c:143-195 | otherwise the entries of the indirect blocks are lost |
| `Directories.DeleteKeeps` | fs/dir.c:244-356 | deleting keeps the same |
| `Directories.DeleteIsMapRemoval` | fs/dir.c:244-356 | deleting removes exactly the file with that inode; it finds nothing exactly if there is none, and never ends exactly if the file is alone in an indirect block |
| `Directories.LiveUpdate` | fs/dir.c:361-410 | filling or making a hole inserts or removes one entry and keeps the order of the others |
| `Directories.NewDirOk` | fs/fs.c:655-670 | the block written for a new directory is a good directory that holds its two dots |
| `Directories.DeleteUndoesInsert` | fs/dir.c:128-356 | deleting the entry just inserted gives back the directory exactly if a direct block had room; otherwise it never ends |
| `Directories.EmptyHasOneBlock` | fs/dir.c:420-427 | the ASSERT of dir_remove: a directory that counts as empty has no block but the first |
| `FullDirectory.PackedInsert` | fs/dir.c:128-235 | without deletions the blocks fill up in order |
| `FullDirectory.FullDirectoryFails` | fs/dir.c:143-356 | any 251 entries inserted into a new directory leave it in the state where inserting loses entries and deleting the last one never ends |
| `FullDirectory.RunToFull` | fs/dir.c:143-356 | there is such a run |
| `Directories.EveryRunKeepsEntries` | fs/dir.c:128-356 | after every run that avoids the two failing cases above the directory holds exactly what was inserted and not deleted, and its size counts it |
| `DirectoryStores.DirectoryStore.Search` | fs/dir.c:32-96 | looking a name up in the directory is looking it up in the map |
| `DirectoryStores.FreeSlot` | fs/dir.c:215-226 | the first free slot of a block |
| `DirectoryStores.Inspect` | fs/dir.c:273-294 | the scan of a block: slot, entry count and whether it holds the dots; the ASSERT that the entry is found once holds |
| `DirectoryStores.DirectoryStore.Read` | fs/dir.c:361-410 | the entry at the position, counting live entries across holes, or NULL behind the last |
| `DirectoryStores.DirectoryStore.ReadAll` | fs/dir.c:361-410 | reading from the start returns every live entry in order, then NULL |
| `DirectoryStores.LiveExact` | fs/dir.c:361-410 | that list has every entry once |
| `Paths.Components` | fs/fs.c:218-233 | repeated path_parse yields proper names |
| `Paths.ComponentsOfRender` | fs/fs.c:218-233 | names survive being written as a path and parsed again |
| `Paths.ComponentsConcat` | fs/fs.c:218-233 | the names of two strings joined by a slash are the names of the first and then of the second, whatever slashes they contain |
| `Paths.ComponentsOfName` | fs/fs.c:218-233 | a string without slashes is its own only name |
| `Paths.WashPath` | shell/buildin_cmd.c:16-54 | the string operations of wash_path compute the stack of names |
| `Paths.Up` | shell/buildin_cmd.c:30-40 | the .. case on the string |
| `Paths.WashedIsClean` | shell/buildin_cmd.c:16-54 | the result is absolute, has no ., .. or doubled slash, and washing it again changes nothing |
| `Paths.WashedNoLonger` | shell/buildin_cmd.c:16-54 | washing never makes a path longer |
| `Trees.LookupDir` | fs/fs.c:261-337 | a search that ends at a directory followed the whole path and reports the directory it was found in; a search that fails at the last name reports its parent |
| `Trees.LookupExact` | fs/fs.c:261-337 | the search reports the entry a path names, or its absence, exactly if all names but the last lead to a directory; otherwise it reports a file on the way or a name missing before the last |
| `Trees.SearchExact` | fs/fs.c:261-337 | search_file on every path string: the entry the path names, or its absence, exactly if the names before the last lead to a directory; else a file on the way or an earlier missing name; the root for its own path; undefined exactly for paths that are not absolute, too long or without names |
| `Trees.WalkIsPath` | fs/fs.c:284-324 | following any path with . and .. in it leads to the directory that the stack of names denotes |
| `Trees.PathLeadsBack` | fs/fs.c:849-897 | every directory is found under its path from the root |
| `Trees.CwdIsWashedPath` | fs/fs.c:849-915 | the current directory after changing to a path is the washed path, which leads to the same directory: washing preserves meaning |
| `Trees.OnlyName` | fs/fs.c:807-844 | the entry found for a directory in its parent is the right one; no dot entry is taken for it |
| `Trees.GetCwd` | fs/fs.c:849-897 | the upward walk ends, and the two loops over the buffer yield the path from the root |
| `Trees.Turn` | fs/fs.c:889-894 | the second loop reverses the order of the names |
| `TreeChanges.CanCreateMeans` | fs/fs.c:611-631 | the test made before creating holds exactly if the parent path leads to a directory that lacks the name |
| `Listings.ListingInsert` | fs/dir.c:128-235 | where inserting into the blocks of a directory loses nothing, it adds one name to its listing |
| `Listings.ListingDelete` | fs/dir.c:244-356 | deleting from the blocks takes exactly the names of that inode out of the listing |
| `Listings.ListingLoses` | fs/dir.c:143-195 | where it loses entries, some other name is gone from the listing |
| `InodeTrees.MkdirKeeps` | fs/fs.c:599-713 | on inode table, inode bitmap and directory blocks: fails exactly when the parent path does not lead to a directory that lacks the name, stops exactly without a free inode, and leaves a tree if and only if the parent can take the entry and the inode number is below 256; then the new directory is the only change |
| `InodeTrees.CreateKeeps` | fs/fs.c:344-409 | likewise for a new file |
| `InodeTrees.Overfull` | fs/dir.c:143-195 | creating in a full directory leaves a file or directory that no directory lists |
| `InodeTrees.TooHigh` | fs/inode.c:51-81 | an inode number from 256 on is stored in the slot of another inode |
| `InodeTrees.UnlinkKeeps` | fs/fs.c:540-588 | removes exactly the file the search ended at, unless it is open, and leaves a tree; never ends exactly when the entry is alone in an indirect block; stops exactly at the root |
| `TreeChanges.UnlinkKeeps` | fs/fs.c:540-588 | on the tree this takes exactly that file and its one entry away |
| `TreeChanges.UnlinkNamed` | fs/fs.c:540-588 | what is removed is the file the path names if and only if the names before the last are all directories |
| `TreeChanges.UnlinkIgnoresRest` | fs/fs.c:308-315 | names behind a regular file are ignored, so unlinking below a file removes the file |
| `InodeTrees.RmdirKeeps` | fs/fs.c:763-789 | is attempted exactly for empty directories; never ends exactly when the entry is alone in an indirect block; leaves a tree if and only if the path does not end in a dot, and then only that directory is gone; dir_remove's ASSERTs hold |
| `TreeChanges.RmdirKeeps` | fs/fs.c:763-789 | on the tree this takes exactly that directory and its one entry away |
| `TreeChanges.RmdirDotDangles` | fs/dir.c:420-441 | with a path that ends in a dot the parent keeps an entry for the freed inode |
| `InodeTrees.RmdirUndoesMkdir` | fs/fs.c:763-789 | removing a directory just made restores inode table, bitmap and blocks if a direct block of the parent had room; otherwise it never ends |
| `InodeTrees.FormattedOk` | fs/fs.c:164-207 | a formatted partition is a tree |
| `InodeTrees.StepKeeps` | fs/fs.c:540-789 | a call leaves a tree if and only if it meets the condition above |
| `InodeTrees.EveryRunKeepsTree` | fs/fs.c:540-789 | over every run of mkdir, create, unlink and rmdir that meet these conditions the directories on disk form a tree in which every .. names the parent that lists the directory |
| `FullTree.RootOverflows` | fs/fs.c:599-713 | 251 directories in the root of a formatted partition form a tree; the next mkdir succeeds and leaves a directory whose .. names the root and which is listed nowhere |

## Left out

- Boot code, interrupt entry, context switch, descriptor tables and timers: a context switch is a change of the running thread, a timer tick an action that may occur wherever interrupts are on.
- System calls run with interrupts off; the thread model allows preemption inside them as well, so it has more runs than the code.
- The 32-bit wrap-around of a lock's nesting count, and thread priorities and ticks.
- `identify_disk`, which issues a command without the channel's lock, `busy_wait`, port input and output, and the second disk of a channel.
- `thread_exit` reads the pid after the page of the process has been freed; the model reads it before. The exit of kernel threads is modelled in `Threads` but not in `Processes`.
- Kernel pages for process control blocks, page directories and virtual bitmaps of processes, and the rounding of their page counts in fork and exit.
- The heap of a forked child, whose arenas still point to the parent's descriptors.
- The pool sizes that `mem_pool_init` computes; any two disjoint pools are allowed.
- ThreadTheorems.QueuesMatchStatuses: `ioq_wait` in device/ioqueue.c blocks a thread that is on no wait queue until a key or a pipe wakes it; the thread model has no such waits, so that a BLOCKED thread other than idle is on a wait queue is claimed only of runs without them.
- PageManagers.PageManager.Allocate: keeps the bitmaps as sequences of bits and takes the scan from the function that `Bitmaps.Bitmap.ScanFor` is proved to compute; the same holds of the frames it takes.
- FileStores.FileStore.FileWrite: promises nothing about the state after the sum of size and length wrapped, when the code runs off its address table, or after an ASSERT stopped it.
- FileStores.FileStore.FileRead: promises nothing about the bytes copied when it leaves the file.
- Volumes.EveryRunKeepsVolume: says nothing about what the bitmaps on disk contain at a crash; it is about the bitmap in memory.
- FolderStores.FolderStore.AddEntry: names have at most 15 characters and inode numbers 32 bits, the size of their fields; promises nothing about the state after the partition is full.
- InodeTrees.MkdirKeeps: the bodies of files and the sectors of directories are in `Volumes`, not here; a partition without free blocks, the roll back after failures of memory, and in-memory copies of open inodes are not modelled.
- Trees.GetCwd: requires nothing of the length of the path; the code's buffers hold 512 bytes.
- Names longer than 15 characters, which overflow the fixed name buffers.
- `path_depth_cnt` of a path without names reads a buffer that was never set; mkdir and open of such paths are excluded by the search result `Unset`.
- `partition_format` beyond the initial state, including the bit it clears too many.
- Open file tables, descriptors, write denial, seek, pipes, console, keyboard, shell, ELF loading and formatted printing: they would only add easy members.
