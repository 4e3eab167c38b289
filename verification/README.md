# Models of the kernel homework code

Dafny models of the parts of the five homework trees over Linux 2.6.11 that are hard to get right,
with proofs about every run, every input or every interleaving of the model.

| component | files | what is proved |
|---|---|---|
| zoned buddy allocator (`HW5/mm/page_alloc.c`) | `Dyadic`, `BuddyLists`, `Zone`, `ZoneRun`, `Watermark` | the free lists are always exactly the maximal aligned free blocks; exact round trips; in every run from boot every page is in exactly one place and the counters add up; a watermark yes means the allocation succeeds |
| directory locking and rename (`HW6/fs/namei.c`) | `WaitGraph`, `DirTree`, `RenameLocks`, `RenameCompletes` | the rename trap is exact, the directories stay a tree, every operation has exactly its effect on names and parents, no circle of waiters, some operation can always go on, and an operation alone completes |
| sthread semaphore (`HW3/sthreads/sync.c`) | `Semaphore`, `SemaphoreDestroy` | count conservation, first-in first-out service, no lost wake-up, no use of a freed node; exactly when destroy loses the lock, and exactly whom a successful destroy strands |
| UWRR scheduler (`HW4/kernel/sched.c`) | `PrioArray`, `Runqueue`, `Scheduler`, `SchedulerEffects`, `SchedulerRuns`, `UwrrRound` | bitmaps, counts, sums and the list of users agree in every run from boot, owner changes step by step, with the exact conditions on a fork and on a policy change inside an owner change; every operation moves exactly the tasks it should, queue by queue; the choice of the next task follows the plain rule; a round is exactly fair, with the exact limit on the weight |
| load balancing (`HW4/kernel/sched.c`) | `Balance`, `MoveTasks`, `RunqueueLocks` | the imbalance arithmetic never underflows, asks for the largest number of tasks that fits, and on the proportional path between groups of at least one CPU's power (SCHED_LOAD_SCALE) overshoots by at most one; exactly the first movable tasks move and both runqueues stay consistent; two-runqueue locking never deadlocks |
| page lists for LRU and MRU reclaim (`HW5/mm/vmscan.c`, `swap.c`, `mm_inline.h`) | `PageLists`, `LruZone`, `PageWalk`, `Reclaim` | flags, lists and counters agree in every interleaving; the MRU order; when filling and clearing the safety list is the identity |
| table of users (`HW4/kernel/user.c`) | `UidTable` | it is seen as a total map from user id to weight and slice |

State that the source changes in place is a class whose methods are proved equal to functions on
snapshots (`Zone`, `Runqueue`, `CpuQueue`, `LruZone`, `UidTable`); the functions carry the theorems. Where several
threads or CPUs interleave, a step relation over a snapshot has one program counter or place per
participant. Linked lists are sequences: index 0 is the entry after the list head.

Points where the code decides, against its comments or against expectation:

- `free_pages_bulk` with count 0 frees nothing (`HW5/mm/page_alloc.c:319`); the comment above it says all.
- The first comparison of `zone_watermark_ok` is unsigned, so a negative count passes it and is caught
  by the signed comparison of the loop; for order 0 the count cannot be negative. `FirstTestExact` gives
  the exact condition under which the unsigned test is the intended one.
- `sthread_sem_destroy` keeps the spin lock for ever exactly when it finds units out (`DestroyExact`,
  with the runs that get there in `WedgeHappens` and what follows in `WedgedForever`). When it succeeds,
  it strands exactly the sleeping waiters that have no unread wake token (`StrandedExact`,
  `StrandHappens`). The other semaphore theorems hold in such runs too.
- The fast path of `wake_up_new_task` puts the child on its parent's array but counts it by its own
  policy, a copy made when the fork began (`HW2/kernel/fork.c:835`). The fork may sleep before it wakes
  the child (`HW2/kernel/fork.c:935-1180`), so a change of the parent's policy meanwhile can leave the
  two at odds. The runqueue stays consistent exactly when both are UWRR or both are not
  (`ForkedExact`); `ForkRaceHappens` is the run from boot in which it does not.
- `switch_uid` assigns the owner without a lock (`HW4/kernel/user.c:197`); `uwrr_switch_user` then tests
  the policy, again without a lock, and only then moves the task under the runqueue lock
  (`HW4/kernel/sched.c:5222-5234`). Ticks, wake-ups, forks, choices of the next task and other tasks'
  changes may come between these steps. The locked section takes the task off after its owner has
  changed, so the wrong user may leave the list of users for a moment; it always ends in a consistent
  state with no idle user left behind (`RepairedOk`, `RepairedTidy`).
- A policy change of the task itself between these steps is another matter. Away from UWRR it does no
  harm exactly under `WindowExact`; right after the assignment that is when the owner is the same or the
  previous owner has another queued task (`JustAssigned`). `OwnerRaceHappens` is the run from boot in
  which a busy user is no longer listed and the user loop of `schedule` comes to an empty list, which its
  BUG_ON catches (`HW4/kernel/sched.c:2868`).
- A user's slice is an unsigned 32-bit field that is set to 100 times the weight, and
  `sys_setuserweight` has no upper limit. The user gets its 100 ticks per unit of weight exactly for
  weights up to 42949672 (`SliceFits`); the weight 2^30 makes the slice zero, which then counts down from
  2^32 (`SliceWraps`).
- `sched_setscheduler` accepts SCHED_UWRR only with a non-zero priority argument.
- `scan_active_for_mru` followed by `clear_safety_list` restores the lists exactly if and only if there is
  no inactive page or at least twice the target active pages (`FillThenClearIsIdentity`).
- `clear_safety_list` walks the list without `lru_lock`. The walk meets the head of the safety list
  exactly when the page it resumes at is still on that list (`WalkMeetsHead`); an activation of the page
  read ahead leads it away for good (`StrayWalk`), a rotation ends it early (`EarlyEnd`).

## Model

| member | source | states |
|---|---|---|
| `Dyadic.BuddyBits` | HW5/mm/page_alloc.c:257-269 | on aligned indices the xor and the and of the code are the buddy and the common parent block |
| `Dyadic.AlignBits` | HW5/mm/page_alloc.c:248 | the bit test of the BUG_ON is zero exactly on aligned indices, for every order |
| `Dyadic.ParentSplits` | HW5/mm/page_alloc.c:252-271 | the parent is the disjoint union of a block and its buddy, and the buddy of the buddy is the block |
| `BuddyLists.RemoveKeepsCanon` | HW5/mm/page_alloc.c:264-268 | taking any listed block off keeps the lists equal to the maximal aligned free blocks |
| `BuddyLists.AddKeepsCanon` | HW5/mm/page_alloc.c:272-275 | listing a block whose buddy is not listed keeps that form |
| `BuddyLists.FreeKeepsCanon` | HW5/mm/page_alloc.c:236-275 | freeing with all its merges keeps that form and adds exactly the pages of the block |
| `BuddyLists.ExpandKeepsCanon` | HW5/mm/page_alloc.c:367-383 | splitting keeps that form; exactly the lowest piece is missing afterwards |
| `BuddyLists.RmqueueKeepsCanon` | HW5/mm/page_alloc.c:431-451 | allocation fails exactly when no aligned block of the order is wholly free; otherwise it hands out one, aligned and free, and keeps the form |
| `BuddyLists.RmqueueBestFit` | HW5/mm/page_alloc.c:431-451 | the block comes from the head of the lowest list that has one; each order below it gets the one upper half, no other list changes |
| `BuddyLists.FreeBlockShape` | HW5/mm/page_alloc.c:251-275 | a free merges exactly while the buddy is listed; the merged block heads the list it ends on, the lists on the way lose the buddy and nothing else, no other list changes |
| `BuddyLists.FreeUndoesExpand` | HW5/mm/page_alloc.c:236-275 | freeing the lowest piece after a split gives the lists that freeing the whole block gives, in order, whatever was listed |
| `BuddyLists.AllocFreeRoundTrip` | HW5/mm/page_alloc.c:431-451 | allocating a block and freeing it at once restores every list element for element |
| `BuddyLists.RunKeepsCanon` | HW5/mm/page_alloc.c:236-451 | after any legal run of allocations and frees the lists are exactly the maximal aligned blocks of the free pages |
| `BuddyLists.BootIsCanon` | HW5/mm/page_alloc.c:1574-1700 | the empty lists at boot have the form, with no page free |
| `BuddyLists.HistoryIrrelevant` | HW5/mm/page_alloc.c:236-451 | two histories from boot that leave the same pages free list the same blocks at every order |
| `BuddyLists.FreePagesAreListed` | HW5/mm/page_alloc.c:250-275 | the sum of nr_free << order is the number of free pages |
| `BuddyLists.MaximalDisjoint` | HW5/mm/page_alloc.c:236-275 | two different listed blocks share no page |
| `BuddyZone.Zone.constructor` | HW5/mm/page_alloc.c:1574-1640 | a zone starts valid, all pages reserved, nothing to hand out, and two per-CPU lists a CPU with marks of 2 and 6 batches (hot) and 0 and 2 batches (cold) |
| `BuddyZone.Batch` | HW5/mm/page_alloc.c:1617-1622 | the refill batch is the largest number up to 16 with 4096 pages of the zone for each of its pages, and at least 1 |
| `BuddyZone.Zone.Coalesce` | HW5/mm/page_alloc.c:251-271 | the merging loop ends with no mergeable buddy, and finishing from there ends as freeing the original block would |
| `BuddyZone.Zone.FreeToBuddy` | HW5/mm/page_alloc.c:236-275 | lists, page marks, counters and free_pages end as the function says; pages outside the free ones are untouched |
| `BuddyZone.Zone.ExpandBlock` | HW5/mm/page_alloc.c:367-383 | the splitting loop lists each upper half once and leaves the lowest piece clean |
| `BuddyZone.Zone.Rmqueue` | HW5/mm/page_alloc.c:431-451 | result and lists as the function says; the block was free and is clean; free_pages drops by its size, or nothing changes and no block of the order is free |
| `BuddyZone.Zone.FreePagesBulk` | HW5/mm/page_alloc.c:307-328 | for any order: the last min(count, length) blocks of the list become free, the others stay on it in order, pages outside are untouched |
| `BuddyZone.Zone.RmqueueBulk` | HW5/mm/page_alloc.c:458-476 | for any order: up to count distinct aligned blocks leave the free pages, clean; fewer only when no block of the order is free |
| `BuddyZone.Zone.FreeHotColdPage` | HW5/mm/page_alloc.c:569-590 | exactly one page more can be handed out and it heads its per-CPU list; a list below its high mark keeps all its pages, a full one gives exactly a batch from its tail back to the free pages; other lists stay |
| `BuddyZone.Zone.TakeCached` | HW5/mm/page_alloc.c:622-639 | the head of the per-CPU list is handed out; a list over its low mark loses nothing else and no free page is touched, another is first filled up at its tail by a batch or by all free pages; nothing only when list and zone are empty |
| `BuddyZone.Zone.TakeBlock` | HW5/mm/page_alloc.c:641-645 | a whole block leaves the buddy lists, the per-CPU lists stay consistent |
| `BuddyZone.Zone.BufferedRmqueue` | HW5/mm/page_alloc.c:616-658 | success hands out an aligned block that was available, and exactly it, with one reference on its first page; failure changes nothing that can be handed out and means that no block of the order is free; what others own is untouched |
| `BuddyZone.OwnerWriteExact` | HW5/mm/page_alloc.c:202-210 | a write to the struct of a page in use keeps the zone consistent if and only if it does not forge the mark of a free block |
| `BuddyZone.Zone.OwnerWrite` | HW5/mm/page_alloc.c:202-210 | any other write by the owner of a page keeps the zone valid |
| `BuddyZone.Zone.FreePages` | HW5/mm/page_alloc.c:900-908 | the block goes back exactly when the last reference of an unreserved page goes, a single page to the head of its per-CPU list; otherwise only the count changes |
| `BuddyZone.Zone.PrepNewPage` | HW5/mm/page_alloc.c:405-425 | the page gets its first reference and no private data, nothing else changes, the zone stays valid |
| `BuddyZone.Accounting` | HW5/mm/page_alloc.c:569-645 | free, cached and used pages are disjoint and add up to the zone; free_pages and the per-CPU counts are their sizes |
| `ZoneRuns.ServeWrite` | HW5/mm/page_alloc.c:202-210 | a write by an owner happens unless it would forge a free block; the partition of the pages stays |
| `ZoneRuns.ServeRelease` | HW5/mm/page_alloc.c:900-908 | exactly with the last reference the block moves from the owners to the zone; what the owners keep is untouched |
| `ZoneRuns.ServeAllocate` | HW5/mm/page_alloc.c:616-658 | a whole block moves from the zone to the owners, or no block of the order is free; what was owned is untouched |
| `ZoneRuns.AllocateThenFree` | HW5/mm/page_alloc.c:236-451 | on the zone: an allocation followed by the free of the block restores every list with its counter, free_pages, the free pages and every mark of every page; it gets no block exactly when none of the order is free |
| `BuddyZone.MarksFollowLists` | HW5/mm/page_alloc.c:202-210 | two states with the same lists and the same pages outside them have the same marks on every page |
| `ZoneRuns.Cycle` | HW5/mm/page_alloc.c:569-658 | a page given up on a per-CPU list and asked for again there comes back as handed out |
| `ZoneRuns.PartitionBalances` | HW5/mm/page_alloc.c:569-645 | when every page is owned, free or cached, the counters are sizes, no list is over its high mark and the sizes add up |
| `ZoneRuns.HarmlessExact` | HW5/mm/page_alloc.c:202-210 | the writes refused are exactly those that would make the page pass for a free block of some order |
| `ZoneRuns.ReleasableExact` | HW5/mm/page_alloc.c:900-908 | the releases served are exactly those of whole aligned blocks of the caller with a reference left, clean when it is the last |
| `ZoneRuns.RunFromBoot` | HW5/mm/page_alloc.c:569-658 | after any sequence of writes, releases and allocations from boot every page is in exactly one place and the books balance |
| `Watermark.FirstTestExact` | HW5/mm/page_alloc.c:676 | the unsigned comparison is the intended one for every possible count if and only if min plus reserve does not wrap |
| `Watermark.NegativeFails` | HW5/mm/page_alloc.c:678-687 | a count that is not positive never survives the loop |
| `Watermark.FloorExact` | HW5/mm/page_alloc.c:671-674 | the floor is the mark, the least half of it for gfp_high, the least three quarters of either for can_try_harder, and no other number |
| `Watermark.IntendedExact` | HW5/mm/page_alloc.c:676-687 | the test over integers, order by order: the pages from that order up, less those of the block but one, exceed the floor halved once an order, at order zero floor plus reserve |
| `Watermark.PagesMeanBlock` | HW5/mm/page_alloc.c:431-444 | pages left on the lists from an order up mean that one of these lists has a block |
| `Watermark.HigherOrdersOk` | HW5/mm/page_alloc.c:678-688 | the loop in machine arithmetic is the loop over integers, and a yes leaves a block of at least the order |
| `Watermark.ZoneWatermarkOk` | HW5/mm/page_alloc.c:664-689 | a yes means that the allocation of that order succeeds, always; whenever floor plus reserve does not wrap it is given exactly when every order up to the wanted one keeps its share of the floor |
| `DirTree.FindBelow` | HW6/fs/namei.c:1207-1221 | each upward walk finds the child on the way exactly when the other directory is an ancestor |
| `DirTree.LockRename` | HW6/fs/namei.c:1196-1226 | locks in ancestor-first order, and the trap is the child below the ancestor, if one is |
| `DirTree.TrapExact` | HW6/fs/namei.c:1196-1226 | a source is the trap iff the move would put it inside itself; a target is the trap iff it is an ancestor of the source directory |
| `DirTree.MoveKeepsTree` | HW6/fs/namei.c:2034-2077 | moving a directory keeps the tree if and only if the new parent is not inside it |
| `DirTree.AddKeepsTree` | HW6/fs/namei.c:1615-1640 | a new directory keeps the tree |
| `DirTree.PlanExtends` | HW6/fs/namei.c:1196-1226 | what lock_rename found stays true while existing directories keep their parents |
| `RenameLocks.MovedOk` | HW6/fs/namei.c:2179-2211 | a cross-directory rename past the trap test keeps the tree and touches only what its locks cover |
| `RenameLocks.RenamedOk` | HW6/fs/namei.c:2109-2148 | a rename inside one directory keeps the file system consistent under that directory's lock |
| `RenameLocks.ActFs` | HW6/fs/namei.c:1702-2148 | every operation, those that take effect after the child is unlocked included, keeps the file system consistent and changes only what its held locks cover |
| `RenameLocks.MovedDoes` | HW6/fs/namei.c:2100 | after a rename across directories the target name leads to the inode and the source name is gone, a directory has its new parent, and no other name, parent or inode changes |
| `RenameLocks.StepDoes` | HW6/fs/namei.c:1702-2211 | a step that changes the file system does exactly what the operation of its thread asks for, create, remove, link or rename, and holds the locks for it |
| `RenameLocks.StepLocks` | HW6/fs/namei.c:1196-1235 | a waiting thread goes on with exactly the lock it waited for, which was free; no other step takes one |
| `RenameLocks.RunDoes` | HW6/fs/namei.c:1702-2211 | so in every interleaving |
| `RenameLocks.ProcFrame` | HW6/fs/namei.c:1196-1235 | what a thread has checked stays true through the steps of threads that hold none of its locks |
| `RenameLocks.StepKeepsInv` | HW6/fs/namei.c:1196-2211 | every step of every operation keeps the locking and file system invariant |
| `RenameLocks.RunKeepsInv` | HW6/fs/namei.c:1196-2211 | so does every interleaving |
| `RenameLocks.NoCycleFromRename` | HW6/fs/namei.c:1196-1226 | no circle of waiters goes through a cross-directory rename |
| `RenameLocks.NoPlainCycle` | HW6/fs/namei.c:1702-1800 | nor through parent-then-child operations alone |
| `RenameLocks.NoWaitCycle` | HW6/fs/namei.c:2002-2033 | no state that keeps the invariant has a circle of waiters |
| `RenameLocks.Progress` | HW6/fs/namei.c:2002-2033 | while an operation is under way, some thread in the middle of one can take a step |
| `RenameLocks.DirectoryOperationsNeverDeadlock` | HW6/fs/namei.c:2002-2033 | in every reachable state: a tree, no circle of waiters, and a step for somebody |
| `RenameCompletes.LookupExact` | HW6/fs/namei.c:2179-2211 | the look-ups let a rename through exactly when the source exists, is not moved into itself, and a target is another inode of the same kind not above the source |
| `RenameCompletes.RenameCompletes` | HW6/fs/namei.c:2152-2226 | a rename that may happen is carried through by its thread when nobody is in the way: the name has moved and all locks are free |
| `RenameCompletes.OperationCompletes` | HW6/fs/namei.c:1615-2148 | so is every create, remove, link and rename inside a directory |
| `Semaphore.InitInv` | HW3/sthreads/sync.c:78-97 | a freshly initialised semaphore has the invariant |
| `Semaphore.StepKeepsInv` | HW3/sthreads/sync.c:99-265 | every step of every thread keeps count, queue, tail pointer and wake-up invariant |
| `Semaphore.RunKeepsInv` | HW3/sthreads/sync.c:99-265 | so does every interleaving |
| `Semaphore.SemaphoreSafety` | HW3/sthreads/sync.c:119-265 | in every reachable state: count is initial + ups - downs and not negative, waiters leave in the order they came, the tail pointer is the last link when the lock is free, and a head that could go on has a wake token or is awake |
| `Semaphore.StepCounts` | HW3/sthreads/sync.c:119-265 | a step completes exactly one up past the lock, or takes exactly one unit at its two places, or leaves the count alone |
| `Semaphore.StepTokens` | HW3/sthreads/sync.c:183-188 | exactly one wake token is written for each wake-up passed on, to the thread of the head, and one is read by each sleeper that wakes |
| `Semaphore.NothingLeaks` | HW3/sthreads/sync.c:127-191 | in every interleaving, until a destroy, each node in memory belongs to a down under way that still knows it |
| `Semaphore.NoUseAfterFree` | HW3/sthreads/sync.c:127-191 | in every interleaving, with freed addresses handed out again: no thread reads, writes or frees a node that is not in memory, and a node about to be freed is not queued and not addressed by head, tail or a queued node |
| `Semaphore.DisposeOk` | HW3/sthreads/sync.c:133-190 | freeing the node after the unlock keeps the invariant, and the node is in memory then |
| `Semaphore.NoOvertaking` | HW3/sthreads/sync.c:55 | the count goes down only on an empty queue or for the head of the queue |
| `Semaphore.HeadCanFinish` | HW3/sthreads/sync.c:161-191 | with the lock free and a unit to take, steps of the head thread alone take the unit and leave the queue |
| `Semaphore.FailedDestroyWedges` | HW3/sthreads/sync.c:99-108 | no step of any thread frees the lock a failing destroy has kept, nor completes a down or up |
| `SemaphoreDestroy.WedgedForever` | HW3/sthreads/sync.c:99-108 | in every continuation of a failing destroy the lock stays held and no down or up completes |
| `SemaphoreDestroy.DestroyExact` | HW3/sthreads/sync.c:99-109 | a destroy under way can ever release the lock if and only if the count is back at its initial value, that is, ups equal downs |
| `SemaphoreDestroy.WedgeHappens` | HW3/sthreads/sync.c:99-108 | on every fresh semaphore with two threads a run loses the lock: one takes a unit, the other destroys |
| `SemaphoreDestroy.StrandedExact` | HW3/sthreads/sync.c:59-63 | after a successful destroy a sleeping waiter can ever return if and only if it has an unread wake token |
| `SemaphoreDestroy.StrandHappens` | HW3/sthreads/sync.c:99-191 | on a fresh semaphore of one unit a run ends with destroy successful and the second of two waiters asleep for ever |
| `Semaphore.LinkInOk` | HW3/sthreads/sync.c:146-147 | storing through the tail pointer appends the node to the list |
| `Semaphore.LinkOutOk` | HW3/sthreads/sync.c:175-182 | taking the head off leaves the rest of the list |
| `PrioArrays.EnqueueOk` | HW4/kernel/sched.c:586-593 | enqueueing keeps bitmap, count and queues in agreement |
| `PrioArrays.DequeueOk` | HW4/kernel/sched.c:578-584 | dequeueing keeps them in agreement and removes just the task |
| `PrioArrays.RequeueOk` | HW4/kernel/sched.c:599-602 | requeueing keeps them and the set of queued tasks |
| `PrioArrays.JoinOk` | HW4/kernel/sched.c:1266-1272 | a child put in front of its parent keeps them |
| `PrioArrays.SomeQueue` | HW4/kernel/sched.c:2861-2862 | the total of the queues is positive exactly when some queue is not empty |
| `PrioArrays.FindFirstBit` | HW4/kernel/sched.c:2861-2862 | the lowest set bit, or the number of priorities when none is set |
| `Runqueues.TakenOk` | HW4/kernel/sched.c:781-793 | taking a task off keeps the whole invariant, with the user unlisted when it was the last |
| `Runqueues.EnqueuedOk` | HW4/kernel/sched.c:646-657 | putting a task on keeps it, with the user listed |
| `Runqueues.RequeuedOk` | HW4/kernel/sched.c:2489-2513 | so does renewing a slice and going to the end of the queue |
| `Runqueues.UserOk` | HW4/kernel/sched.c:2500-2510 | so does a new user slice, wrapped or not, and any list that has every busy user once |
| `Runqueues.RelistOk` | HW4/kernel/sched.c:2867-2876 | a list with every busy user once keeps the invariant, sums included |
| `Runqueues.QuietLists` | HW4/kernel/sched.c:646-657 | while no owner change is under way a user is listed exactly when it has queued tasks |
| `Scheduler.ActivatedOk` | HW4/kernel/sched.c:646-657 | __activate_task keeps the invariant |
| `Scheduler.DeactivatedOk` | HW4/kernel/sched.c:781-793 | deactivate_task keeps it while the owner is unchanged |
| `Scheduler.BouncedExact` | HW4/kernel/sched.c:5228-5231 | taking a task off and putting it back with another policy keeps the invariant if and only if it does not unlist a busy owner for the last task of another user |
| `Scheduler.AssignedOk` | HW4/kernel/user.c:184-199 | the unlocked assignment of the owner keeps the invariant |
| `Scheduler.PolicyTestedOk` | HW4/kernel/sched.c:5225 | so does the unlocked policy test, whichever way it goes |
| `Scheduler.RepairedOk` | HW4/kernel/sched.c:5226-5233 | the locked section ends in a consistent state from every state met since the assignment, although the task is taken off under its new owner |
| `Scheduler.ForkedExact` | HW4/kernel/sched.c:1255-1277 | waking a new task keeps the invariant if and only if, on the fast path, child and parent are both UWRR or both not |
| `SchedulerRuns.ForkRace` | HW4/kernel/sched.c:1266-1272 | from every state with a queued parent: turning the parent UWRR before the fast wake-up of a child that is not breaks the counts |
| `SchedulerRuns.ForkRaceHappens` | HW4/kernel/sched.c:1266-1272 | the run from boot that gets there |
| `Scheduler.YieldedOk` | HW4/kernel/sched.c:3827-3861 | yielding keeps it |
| `Scheduler.TickedOk` | HW4/kernel/sched.c:2474-2554 | every tick keeps it, for all policies |
| `Scheduler.RescheduledExact` | HW4/kernel/sched.c:3505-3573 | a change of policy keeps it if and only if the task is not queued, or the busy-owner condition holds |
| `Scheduler.FirstBusy` | HW4/kernel/sched.c:2864-2879 | with UWRR tasks queued, dropping the idle users in front, and only these, ends at the first user with tasks and keeps every busy user listed |
| `Scheduler.ScheduledOk` | HW4/kernel/sched.c:2847-2882 | what schedule does to the arrays and to the list of users keeps the invariant |
| `SchedulerRuns.RepairedTidy` | HW4/kernel/sched.c:5226-5233 | the locked section leaves no idle user listed that only this owner change accounted for |
| `SchedulerRuns.ApplyTidy` | HW4/kernel/sched.c:578-793 | every operation keeps: an idle user is listed only while an owner change under way will see to it |
| `SchedulerRuns.WindowExact` | HW4/kernel/sched.c:3505-3573 | a policy change away from UWRR between the steps of the task's own owner change keeps invariant and list if and only if no busy owner is unlisted and every user that stays listed has tasks or is seen to by somebody |
| `SchedulerRuns.JustAssigned` | HW4/kernel/user.c:197-198 | right after the assignment that is: the owner is the same or the previous owner has another queued task |
| `SchedulerRuns.OwnerRace` | HW4/kernel/sched.c:2867-2879 | with the two users alone on the list, the unsafe policy change leaves UWRR tasks queued and a list whose user loop runs empty |
| `SchedulerRuns.OwnerRaceHappens` | HW4/kernel/user.c:197-198 | the run from boot that gets there, with no real-time task in the way of that loop |
| `SchedulerRuns.RunKeepsInv` | HW4/kernel/sched.c:578-793 | every run of activate, deactivate, fork wake-up, tick, yield, policy change, schedule, weight change and the three separate steps of owner changes keeps bitmaps, nr_active, nr_running, uwrr_running, the list of users and queue membership in agreement |
| `SchedulerRuns.BootedRunKeepsInv` | HW4/kernel/sched.c:578-793 | so in every such run from a runqueue with nothing queued; and with no owner change under way a user is listed exactly when it has queued tasks |
| `Scheduler.SwapOk` | HW4/kernel/sched.c:2847-2858 | swapping the arrays when the active one is empty keeps it |
| `Scheduler.RtIsActive` | HW4/kernel/sched.c:2474-2528 | a real-time task is never in the expired array |
| `Scheduler.UserChoice` | HW4/kernel/sched.c:2861-2882 | without a real-time task the head task of the first user is the right choice |
| `Scheduler.MainChoice` | HW4/kernel/sched.c:2847-2882 | otherwise the first bit of the array in use gives the right choice |
| `Scheduler.Runqueue.ActivateTask` | HW4/kernel/sched.c:646-657 | counters and list of users as the specification function says |
| `Scheduler.Runqueue.DeactivateTask` | HW4/kernel/sched.c:781-793 | the user taken off the list is the present owner |
| `Scheduler.Runqueue.WakeUpNewTask` | HW4/kernel/sched.c:1231-1277 | on the CPU of the parent, for any policies: in front of the parent or by plain activation; the runqueue is consistent afterwards exactly when the classes agree on the fast path |
| `Scheduler.Runqueue.Tick` | HW4/kernel/sched.c:2441-2554 | the tick is that of the specification, with its reschedule request |
| `Scheduler.Runqueue.TickUwrr` | HW4/kernel/sched.c:2489-2513 | the task's slice, then its owner's |
| `Scheduler.Runqueue.TickNormal` | HW4/kernel/sched.c:2514-2554 | a used-up slice sends the task to the expired or back to the active array |
| `Scheduler.Runqueue.Yield` | HW4/kernel/sched.c:3827-3861 | a real-time or UWRR task goes to the end of its queue, another to the expired array |
| `Scheduler.Runqueue.SetScheduler` | HW4/kernel/sched.c:3505-3573 | EINVAL exactly for an unknown policy, a priority outside 0 to 99 or one that does not suit the policy, EPERM exactly without the right; an error changes nothing; success sets the policy asked for and ends at the static priority, at 120 for UWRR or at 99 minus the argument, owner and slice kept; consistent afterwards exactly under the busy-owner condition |
| `Scheduler.Runqueue.AssignOwner` | HW4/kernel/user.c:184-199 | the assignment alone, with the previous owner remembered |
| `Scheduler.Runqueue.TestPolicy` | HW4/kernel/sched.c:5225 | whether the locked section follows |
| `Scheduler.Runqueue.RepairOwner` | HW4/kernel/sched.c:5226-5233 | the locked section of the specification; the runqueue is consistent afterwards in every case |
| `Scheduler.Runqueue.SwitchUser` | HW4/kernel/sched.c:5222-5234 | the three steps in a row, when nothing comes between them; the task ends with its new owner, queued as before |
| `Scheduler.Runqueue.DropIdleUsers` | HW4/kernel/sched.c:2865-2879 | the user loop drops exactly the idle users in front, ends at the first user with tasks and never meets an empty list |
| `Scheduler.Runqueue.PickNext` | HW4/kernel/sched.c:2847-2882 | the task chosen is the one the plain rule allows: best real-time, else head of the first user with tasks, else best ordinary with the expired array only when the active one is empty; the arrays are swapped exactly then, and idle users in front are dropped |
| `SchedulerEffects.ActivatedDoes` | HW4/kernel/sched.c:646-657 | queue by queue: the task is appended to its owner's queue or to the active array, an unlisted owner to the list, and nothing else moves |
| `SchedulerEffects.DeactivatedDoes` | HW4/kernel/sched.c:781-793 | the task alone leaves its queue; counters and the list of users follow |
| `SchedulerEffects.ForkedDoes` | HW4/kernel/sched.c:1255-1277 | on the fast path the child stands directly before its parent with its priority, otherwise it is activated with its own |
| `SchedulerEffects.YieldedDoes` | HW4/kernel/sched.c:3827-3861 | a real-time or UWRR task goes to the end of its own queue, another one to the end of its queue in the expired array; the list of users stays |
| `SchedulerEffects.TickedDoes` | HW4/kernel/sched.c:2455-2554 | for every policy what the tick does to record and queues: round-robin tasks rotate exactly with the last of their slice, FIFO tasks never, a UWRR task and its owner are both charged, an ordinary task changes array exactly with the last of its slice |
| `SchedulerEffects.TimesliceScale` | HW4/kernel/sched.c:160-181 | 20 ms a level below nice 0 and 5 ms a level from there, 800 ms, 100 ms and 5 ms at the three marks, never more for a worse nice value |
| `SchedulerEffects.RescheduledDoes` | HW4/kernel/sched.c:3481-3497 | the record after a change of policy, and a queued task at the end of the queue that its new class and priority name |
| `SchedulerEffects.RescheduledList` | HW4/kernel/sched.c:3550-3562 | the list of users after a change of policy |
| `SchedulerEffects.LargerIsBetter` | HW4/kernel/sched.c:3487-3488 | of two queued real-time tasks the one with the smaller argument is not the next choice; the other is when no other real-time task is queued |
| `SchedulerEffects.LargerArgumentWins` | HW4/kernel/sched.c:3505-3573 | so after two changes of policy with different arguments |
| `UwrrRound.NextOk` | HW4/kernel/sched.c:2489-2513 | one tick is charged to the first user, and only its slice and its place in the list change |
| `UwrrRound.NoReschedNeeded` | HW4/kernel/sched.c:2489-2513 | when a tick asks for no reschedule the running task is still the one that would be chosen |
| `UwrrRound.Turn` | HW4/kernel/sched.c:2489-2513 | the first user pays for every tick of its slice, then gets a new slice and goes last |
| `UwrrRound.SliceFits` | HW4/kernel/sched.c:2502 | the turn of a user is 100 ticks per unit of weight if and only if the weight is at most 42949672 |
| `UwrrRound.SliceWraps` | HW4/kernel/sched.c:5194-5217 | the accepted weight 2^30 gives a slice of zero and a turn of 2^32 ticks |
| `UwrrRound.RoundIsFair` | HW4/kernel/sched.c:2489-2513 | a round gives every user exactly its slice, which is 100 ticks per unit of weight if and only if that fits the field, and restores the order of users and all slices |
| `UwrrRound.WaitIsBounded` | HW4/kernel/sched.c:2861-2882 | a user is first after exactly the slices before it, at most all slices less its own |
| `Balance.AverageAtMostMax` | HW4/kernel/sched.c:1809-1854 | the domain average does not exceed the largest group load, floors notwithstanding |
| `Balance.AverageAtLeastMin` | HW4/kernel/sched.c:1809-1854 | nor is the average below the smallest load of a group with CPUs; groups without any do not count |
| `Balance.EvenGroup` | HW4/kernel/sched.c:1829-1838 | a group of any number of equally loaded CPUs of one CPU's power has the load of one of them |
| `Balance.AverageBetween` | HW4/kernel/sched.c:1851-1871 | at the subtraction the average is between the two loads, so nothing underflows |
| `Balance.PullKeepsBelow` | HW4/kernel/sched.c:1871-1918 | pulling the tasks raises the computed load by at most the gap plus one |
| `Balance.PushKeepsAbove` | HW4/kernel/sched.c:1871-1918 | giving them up lowers it by at most the gap plus one |
| `Balance.ProportionalIsSafe` | HW4/kernel/sched.c:1871-1918 | on the proportional path neither group crosses the average by more than one |
| `Balance.AnswerExact` | HW4/kernel/sched.c:1848-1931 | the number asked for, told from the loads and powers: 0 or 1 for balanced groups, exactly by the kind of idleness; otherwise the largest number of tasks that fits the smaller gap on the weaker group, so that one more would exceed it; for a smaller gap 1 exactly if the gap is two tasks or an eighth of a CPU is gained |
| `Balance.Scan` | HW4/kernel/sched.c:1807-1849 | totals, own load and the busiest other group with its load |
| `Balance.WorthOne` | HW4/kernel/sched.c:1892-1911 | the small-imbalance test compares used power before and after moving one task |
| `Balance.FindBusiestGroup` | HW4/kernel/sched.c:1800-1931 | a group is returned exactly with a positive imbalance, it is a busiest one, the number is that of AnswerExact, neither less nor more, and every request from the proportional path is a safe move |
| `TaskMoves.TakenExact` | HW4/kernel/sched.c:1714-1791 | at most the allowed number of tasks leaves an array, all queued and movable there, and fewer only when no movable one is left |
| `TaskMoves.TakenInOrder` | HW4/kernel/sched.c:1739-1788 | while a movable task stays, only tasks of queues before its own, or nearer the tail of its own, are taken |
| `TaskMoves.ScanMeaning` | HW4/kernel/sched.c:1681-1703 | in the fields: who comes was not running, may use this CPU and is cold unless balancing is aggressive; with allowance left, who stays has one of these reasons |
| `TaskMoves.HandedOver` | HW4/kernel/sched.c:1658-1674 | the queues of each priority hold the same tasks together as before, none twice, and nothing leaves the receiver |
| `TaskMoves.PullQueue` | HW4/kernel/sched.c:1756-1788 | the scan of one queue from its tail takes the next movable tasks on offer |
| `TaskMoves.PullArray` | HW4/kernel/sched.c:1739-1788 | the scan of one array takes exactly the first movable tasks in order of priority index and from the tail of each queue |
| `TaskMoves.MoveTasks` | HW4/kernel/sched.c:1714-1791 | at most max_nr_move tasks move, none from a runqueue with one task, expired before active and tail first; every newcomer was not running, may use this CPU and is cold unless balancing is aggressive, and with allowance left everybody who stays is running, bound elsewhere or hot; arrays, bitmaps, nr_active and nr_running of both runqueues agree, stayers keep their order, newcomers join at the end of the queue of their priority |
| `RunqueueLocks.StepKeepsInv` | HW4/kernel/sched.c:1487-1538 | every step keeps: held locks are exclusive, and a CPU waits only above what it holds |
| `RunqueueLocks.StepLocks` | HW4/kernel/sched.c:1525-1538 | a waiting CPU goes on with exactly the lock it waited for; a failed try lets everything go exactly when the other runqueue is the lower one |
| `RunqueueLocks.NoWaitCycle` | HW4/kernel/sched.c:1525-1538 | no circle of waiting CPUs |
| `RunqueueLocks.Progress` | HW4/kernel/sched.c:1960-2181 | while a CPU is busy with the locks, some such CPU can take a step |
| `RunqueueLocks.RunqueueLocksNeverDeadlock` | HW4/kernel/sched.c:1487-1538 | in every reachable state, for any number of CPUs: waits go upwards, no circle, and a step for somebody |
| `PageLists.OneList` | HW5/include/linux/mm_inline.h:3-64 | a page with PG_lru is on exactly the list its flags name, any other page on none |
| `PageLists.TakenOk` | HW5/include/linux/mm_inline.h:48-64 | taking a page off whichever list it is on, with the counter its flags name, keeps the invariant |
| `PageLists.AddedOk` | HW5/include/linux/mm_inline.h:3-32 | adding a page without PG_lru to a list keeps it, and the flags then name that list |
| `PageLists.ActivatedOk` | HW5/mm/swap.c:105-122 | activation keeps it and puts the page at the head of the active list; no other page changes list, place or flags |
| `PageLists.RotatedOk` | HW5/mm/swap.c:72-99 | rotation keeps it and puts the page at the tail of its own list; nothing else changes |
| `PageLists.DroppedOk` | HW5/mm/swap.c:186-200 | releasing a page keeps it and clears all list flags |
| `PageLists.ScanOk` | HW5/mm/vmscan.c:609-634 | an isolating scan keeps it and touches only pages it takes, each taken once with one more reference |
| `PageLists.ScanOffers` | HW5/mm/vmscan.c:609-634 | the scan takes the first pages on offer, in order, and leaves the others on offer |
| `PageLists.ScanTakesTail` | HW5/mm/vmscan.c:713-735 | a scan of n pages takes exactly those among the n nearest the tail that are not being freed elsewhere, nearest first |
| `PageLists.AddEachOk` | HW5/mm/vmscan.c:656-672 | putting back any pages that are on no list keeps the invariant and adds exactly them |
| `PageLists.AddEachLists` | HW5/mm/vmscan.c:656-672 | each list gets its pages at the head, the last one put back first, and is otherwise as it was |
| `PageLists.MovedOk` | HW5/mm/vmscan.c:968-988 | moving active pages to the safety list keeps it, for every number of pages |
| `PageLists.FillThenClear` | HW5/mm/vmscan.c:951-1048 | the exact active and inactive lists after filling an empty safety list and clearing it |
| `PageLists.FillThenClearIsIdentity` | HW5/mm/vmscan.c:951-1048 | everything is restored if and only if there is no inactive page or at least twice the target active pages |
| `PageLists.MruFirst` | HW5/mm/vmscan.c:951-1009 | after the fill, pages are on offer in the order of the active list, most recently used first |
| `LruZones.LruZone.DelPageFromLru` | HW5/include/linux/mm_inline.h:48-64 | list, the counter the flags name, and the flags; the warning never fires |
| `LruZones.LruZone.ActivatePage` | HW5/mm/swap.c:105-122 | the activation of the specification, invariant kept |
| `LruZones.LruZone.MarkPageAccessed` | HW5/mm/swap.c:131-139 | the second touch of an inactive page activates it, any other only marks it |
| `LruZones.LruZone.RotateReclaimablePage` | HW5/mm/swap.c:88-96 | the rotation of the specification, invariant kept |
| `LruZones.LruZone.ReleasePage` | HW5/mm/swap.c:215-250 | the page is freed exactly when its last reference goes, with no list flag left |
| `LruZones.LruZone.IsolatePages` | HW5/mm/vmscan.c:609-635 | the scan of the specification, with the counter adjusted once at the end; it stops early only on an empty list; its BUG never fires |
| `LruZones.LruZone.PutBackSome` | HW5/mm/vmscan.c:656-672 | pages go back from the tail of the private list to the list their flag names, until the page vector is full |
| `LruZones.LruZone.DeactivateSome` | HW5/mm/vmscan.c:893-915 | the same to the inactive list, with the counter adjusted later; neither BUG fires |
| `LruZones.LruZone.ReactivateSome` | HW5/mm/vmscan.c:924-940 | the same to the active list |
| `LruZones.LruZone.PagevecLruAdd` | HW5/mm/swap.c:297-351 | all pages of the vector join the list, none of the three BUGs fires |
| `LruZones.LruZone.ScanActiveForMru` | HW5/mm/vmscan.c:951-1009 | the fill of the specification; the walk that looks only at the counter always has a page |
| `LruZones.LruZone.ClearSafetyList` | HW5/mm/vmscan.c:1038-1048 | left alone, the safety list ends empty, its pages active in reverse order |
| `PageWalks.WalkEnds` | HW5/mm/vmscan.c:1038-1048 | from any entry of any list the walk ends at the head of that list, having activated exactly the entries from there on |
| `PageWalks.WalkMeetsHead` | HW5/mm/vmscan.c:1045-1048 | whatever happened meanwhile, a walk that resumes at a page meets the safety head if and only if the page is on the safety list then |
| `PageWalks.WalkClears` | HW5/mm/vmscan.c:1045-1048 | it clears the whole list if and only if that page is still the first |
| `PageWalks.StrayWalk` | HW5/mm/vmscan.c:1045-1048 | another CPU's activation of the page read ahead keeps the walk from the safety head for ever |
| `PageWalks.EarlyEnd` | HW5/mm/swap.c:88-96 | a rotation of the page read ahead ends the walk with the other pages left |
| `LruZones.LruZone.ReleasePages` | HW5/mm/swap.c:215-250 | each occurrence takes a reference, a page leaves its list exactly when the last one goes, other pages stay, and so does the safety list if none of its pages is given |
| `LruZones.LruZone.ShrinkList` | HW5/mm/vmscan.c:391-565 | seen from outside: each page tried is kept with its references or freed and not active; none is lost |
| `LruZones.LruZone.PutBack` | HW5/mm/vmscan.c:656-672 | every page ends on a list, unless the drop of the vector's reference freed it; the safety list stays |
| `LruZones.LruZone.ShrinkCacheMru` | HW5/mm/vmscan.c:585-678 | the pages offered for reclaim are the first ones of the safety list from its tail that are not being freed elsewhere, at least those among the last 32; whatever becomes of each page, the invariant is kept and every page that was on a list is on one again or freed |
| `Reclaim.StepKeepsOk` | HW5/mm/vmscan.c:598-1009 | each locked section and each reference change keeps flags, lists, counters, references and private lists in agreement |
| `Reclaim.StepHasNoBug` | HW5/mm/vmscan.c:617-660 | no BUG, WARN_ON or repeated count test of the sections can fail |
| `Reclaim.StepReferences` | HW5/mm/vmscan.c:598-1009 | what each step adds to the references of a page: one for each get, vector entry or isolation, one less for each drop, all gone with a freed candidate, nothing else |
| `Reclaim.MarkedGoesActive` | HW5/mm/vmscan.c:656-672 | a page that reclaim keeps ends on the active list exactly when it was marked active on the way |
| `Reclaim.RunKeepsOk` | HW5/mm/vmscan.c:598-1009 | so does every interleaving of any number of CPUs |
| `Reclaim.PageListsStayConsistent` | HW5/mm/vmscan.c:598-1009 | in every interleaving from boot, whenever the lock is free: one list for each PG_lru page, none for privately held pages, and free pages have no reference and no list flag |
| `Reclaim.EveryBatchFromTheTail` | HW5/mm/vmscan.c:609-634 | in every interleaving each isolated batch is exactly the pages not being freed elsewhere among those nearest the tail, nearest first |
| `UidTables.FindOk` | HW4/kernel/user.c:74-90 | look-up finds the one listed user of an id and fails only if there is none |
| `UidTables.InsertUnseen` | HW4/kernel/user.c:164-178 | adding a user with defaults is not seen |
| `UidTables.RemoveUnseen` | HW4/kernel/user.c:114-124 | removing one is not seen |
| `UidTables.ReleaseUnseen` | HW4/kernel/user.c:108-127 | dropping a reference is not seen, whether it frees the user or keeps it |
| `UidTables.StepRefines` | HW4/kernel/user.c:74-182 | every interleaved step keeps the invariant, and only setting a weight or a slice changes what is seen, at that user alone |
| `UidTables.StepReferences` | HW4/kernel/user.c:74-182 | a user found, added or shared gets exactly one reference, also after a lost race; a free gives one back, no other step changes one |
| `UidTables.HashSpreads` | HW4/kernel/user.c:21-25 | ids that differ in one of their two bytes only never share a chain |
| `UidTables.RunKeepsOk` | HW4/kernel/user.c:74-182 | so in every run: no id twice, counts equal references, no structure lost |
| `UidTables.WeightSurvives` | HW4/kernel/sched.c:5194-5217 | a weight survives any number of acquisitions, releases and races until it is set again |
| `UidTables.HoldersAgree` | HW4/kernel/user.c:128-182 | in every run from boot, whoever holds a reference holds the one listed user of its id and sees what everybody sees |
| `UidTables.UidTable.UidHashFind` | HW4/kernel/user.c:74-90 | the walk is the look-up of the specification and references the user found |
| `UidTables.UidTable.AddOrFind` | HW4/kernel/user.c:164-178 | the second half: the user of the id by now, referenced, or the new structure; nothing is seen of it |
| `UidTables.UidTable.AllocUid` | HW4/kernel/user.c:128-182 | fails only without memory for a missing user; the result is the one listed user of the id, also when another thread added it between the look-ups, with one reference more; other users stay and nothing is seen of it |
| `UidTables.UidTable.FreeUid` | HW4/kernel/user.c:108-127 | null is accepted; nothing is seen of it |
| `UidTables.UidTable.SetUserWeight` | HW4/kernel/sched.c:5194-5217 | errors in the order of the code; success changes exactly the weight of the named user; every reference taken is dropped again |
| `UidTables.UidTable.GetUserWeight` | HW4/kernel/sched.c:5178-5191 | the weight everybody sees; asking changes nothing that is seen, and every reference taken is dropped again |

## Left out

- BuddyZone.Zone.PrepNewPage: of the page flags only PG_private and PG_reserved are modelled, so the tests of the others, which report a bad page, and their clearing are not.
- BuddyZone.Zone.FreeToBuddy: free lists and page structures are sequences, so the linking of list nodes is not shown; compound pages and the all_unreclaimable reset are not modelled.
- BuddyZone.Zone.BufferedRmqueue: one zone; the zone list, gfp zones and reclaim on failure are not modelled.
- Watermark.ZoneWatermarkOk: 32-bit long, and counts and marks below half the word, as on the machine the code was written for.
- RenameLocks.StepKeepsInv: path walking, permissions, mounts, reference counts and several file systems are not modelled; d_move is "old takes new's parent and name".
- Semaphore.StepKeepsInv: the pipe never fills; other users of the heap are not modelled.
- Scheduler.Runqueue.PickNext: re-prioritising of a task woken by an interrupt and the switch itself are not modelled.
- Scheduler.TickedOk: interactivity is a parameter (new priority, whether the task stays active); set_user_nice is not applied to UWRR tasks.
- SchedulerRuns.RunKeepsInv: the two races are not operations of a run: a fork with the classes at odds on the fast path, and a policy change that WindowExact calls unsafe; their effect is stated by ForkedExact and OwnerRace.
- UwrrRound.RoundIsFair: one CPU, since a user has one task array and one list node for all CPUs.
- Balance.FindBusiestGroup: loads and powers are unbounded integers and the CPU masks are lists of loads.
- TaskMoves.MoveTasks: what can_migrate_task finds out about a task (running, CPU mask, cache-hot) is given; the task's CPU number, its timestamp, the reschedule request and the statistics are not modelled.
- RunqueueLocks.StepKeepsInv: interrupts and the rechecks of a task's runqueue after locking are not modelled.
- LruZones.LruZone.ShrinkCacheMru: no other activity on the zone meanwhile and page vectors drained before; with other activity the sections are the steps of Reclaim.
- LruZones.LruZone.ClearSafetyList: stated for a zone with no other activity; PageWalks gives the exact condition when there is.
- LruZones.LruZone.ShrinkList: what it decides for a page depends on I/O, reverse mappings and swap, which are not part of this model, so each outcome is a free choice.
- LruZones.LruZone.ScanActiveForMru: the pages pulled in after the lock is dropped are the inactive ones of a zone with no other activity; with other activity each is an activation of some page, a step of Reclaim. page_referenced, which may clear the referenced mark of a page, is not part of this model.
- Reclaim.StepKeepsOk: what shrink_list does with a page is a free choice, as is which held pages a refill keeps active; reserved pages and zones other than one are not modelled.
- UidTables.UidTable.AllocUid: keyrings and process counts are not modelled; of the other threads only the one that adds the same id is, the rest is in the interleaved steps.
- The scan budgets of shrink_zone, kswapd and direct reclaim: arithmetic on counters around the modelled functions.
- The HW2 scheduler and fork code, the HW3 thread manager and barrier, the HW6 tags and ext2 changes, CPU hotplug, NUMA and statistics.
