# Verified model of the Pintos kernel core

This project models the parts of the Pintos teaching kernel whose correctness is hard to see
from the code, and proves what they promise.

* **Scheduler and synchronisation** (`threads/thread.c`, `threads/synch.c`, the end of
  `intr_handler`). A step system: a step is one region that runs with interrupts off, or one
  plain store or list operation made with them on. Each thread carries a program counter.
  Interrupt handlers and preemption may come between any two steps. `SynchModel` says what the
  regions do, `SchedModel` which thread runs, `KernelRuns` proves the theorems about every state
  that a run from boot reaches, `KernelCalls` what each call does from its start to its return,
  whatever the other threads and the interrupts do meanwhile. `KernelObject` carries the steps out on the lists themselves: each
  thread has one list element, linked into the ready list or into a wait list, and every event
  keeps all these lists well linked and apart from each other.
* **Page allocator** (`threads/palloc.c` over `lib/kernel/bitmap.c`): the bitmap packed into
  words, three search policies, two pools, addresses.
* **Block allocator** (`threads/malloc.c`): it runs on top of the modelled page allocator and keeps
  its bookkeeping where the code does, in the same byte-addressed memory as the blocks it hands
  out: the descriptor table, the arena headers, and free lists threaded through the free blocks.
  That the live blocks keep their bytes is therefore a fact about every store the code makes.
* **Lists** (`lib/kernel/list.c`): doubly linked elements between sentinels, updated link by
  link, and the natural merge sort on them.
* **Hash table** (`lib/kernel/hash.c`), with linked buckets, resizing and iteration.
* **Division, heapsort, binary search** (`lib/arithmetic.c`, `lib/stdlib.c`).
* **Codecs and queues** (`lib/ustar.c`, `lib/stdio.c`, `atoi`, `devices/intq.c`).

Each module follows one source file or one layer of it. Code that changes things in place is a
class or a method with a loop, proved against a function or predicate on values; the lemmas beside
it say what that function means.

Some facts about the code that the proofs brought out:

* `malloc` computes the pages of a big request in 32 bits. A live block is as large as the request
  exactly if that sum does not wrap (`MallocSteps.PagesSuffice`, `BlockStore.LiveDisjoint`); the
  largest request is an example where it does (`MallocSteps.WrappedRequest`). `realloc` to such a
  size copies past its new block exactly if the old block is larger than one page has room for
  (`MallocSteps.OverrunExactly`, with an example in `MallocSteps.OverrunExample`).
* `sdiv64` is truncated division except for INT64_MIN / -1, where the result is INT64_MIN;
  `umod64` is the remainder exactly if that fits in 32 bits.
* `ustar_make_header` accepts a negative size, prints it as an unsigned number, and
  `ustar_parse_header` then rejects the header of a regular file as too large.
* With the grouping flag `atoi` reads back what %d prints exactly for numbers below a thousand
  (`Stdio.RoundTrip`); a field that needs padding is too wide exactly if both the 0 and the - flag
  are set (`Stdio.FieldWidth`).
* `palloc_get_multiple` answers a request for no pages with a null pointer even with PAL_ASSERT.
* `cond_broadcast` does not itself check that the lock is held; its documentation asks for it and
  `cond_signal` checks it. The model follows the documentation for the caller's duty.

## Model

| member | source | states |
|---|---|---|
| KernelRuns.ReachableInv | threads/synch.c:59-319 | every state that a run from boot reaches, in any interleaving of threads, interrupts and preemption, satisfies the joint invariant of scheduler and primitives |
| KernelRuns.EventIsMove | threads/thread.c:210-305 | a scheduler event leaves the primitives alone or makes one permitted move of them |
| KernelRuns.ElemOnOneList | threads/thread.h:76-81 | no thread is on two of the ready list and the wait lists or twice on one; a non-idle thread is on the ready list exactly when READY; a waiter is BLOCKED; the idle thread is never on the ready list; exactly one thread is RUNNING, the current one |
| KernelRuns.ValueIsBalance | threads/synch.c:44-114 | a semaphore's value is its initial value plus completed ups minus completed downs |
| KernelRuns.WokenIsPending | threads/synch.c:59-114 | no lost wakeup: a semaphore with sleepers has at most as many units as threads already popped that have not re-tested, so a positive value with sleepers has a runnable thread on its way to take it |
| KernelRuns.WokenInOrder | threads/synch.c:59-114 | waiters are woken first in, first out: the one at position p is off the list by the (p + 1)-th sema_up at the latest, whatever else the run does |
| KernelRuns.MutualExclusion | threads/synch.c:165-222 | the lock's semaphore value plus the threads between decrement and increment is 1; two such threads are the same; a recorded holder is that thread |
| KernelRuns.QueueIsProtected | threads/synch.c:270-319 | two threads are never at work on one condition's queue, and the one that is holds the lock |
| KernelRuns.TokenInOnePlace | threads/synch.c:270-304 | a waiter's token is queued, being posted, or in its private semaphore, at most one of them and at most once; meanwhile the waiter is inside cond_wait |
| KernelRuns.SignalIsKept | threads/synch.c:270-304 | a signal that lands before the waiter sleeps is kept: the private value is 1, the waiter is runnable and its next test succeeds |
| KernelRuns.ReturnsHolding | threads/synch.c:181-208 | the store of holder ends lock_acquire, lock_try_acquire and cond_wait with the lock held by the caller alone |
| KernelRuns.WaitReturnsHolding | threads/synch.c:181-284 | over every run from a place inside lock_acquire or cond_wait to the thread's first return to user code: it returns with the lock held, and it alone holds it |
| KernelRuns.SignalledInOrder | threads/synch.c:293-304 | entries are signalled in the order of their arrival, each at most once |
| KernelRuns.BroadcastSignalsAll | threads/synch.c:312-319 | whenever the loop test of cond_broadcast finds an empty queue, exactly the entries that were queued at the call have been signalled |
| KernelRuns.BroadcastAdvances | threads/synch.c:312-319 | every step of a broadcasting thread brings it nearer to its end and nobody else touches the queue |
| KernelRuns.BroadcastEnds | threads/synch.c:312-319 | cond_broadcast ends: in every run in which its thread executes more regions than are left, it returns |
| KernelRuns.BroadcastReturns | threads/synch.c:312-319 | over every run from the call of cond_broadcast to its return: exactly the entries that were queued at the call have been signalled meanwhile |
| KernelRuns.NoAssertionFails | threads/thread.c:227-238 | in every reachable state the assertions inside the primitives and the scheduler hold: thread_unblock is applied to a blocked thread, by sema_up in a handler too; lock_release in cond_wait to a held lock, lock_acquire in it to one that is not held; cond_signal in cond_broadcast runs with the lock held |
| KernelRuns.ScheduleFindsThread | threads/thread.c:467-537 | every call of schedule finds a thread: a ready one or the recorded idle thread, and never the exiting one |
| KernelRuns.DelayDecreases | threads/thread.c:117-131 | every tick and every switch lowers position times TIME_SLICE plus the rest of the slice for each ready thread |
| KernelRuns.BoundedWaiting | threads/thread.c:292-305 | in every run with that many ticks and switches the thread is dispatched |
| KernelCalls.CallPerforms | threads/synch.c:59-319 | over every run from a call of sema_down, sema_up, lock_acquire, lock_release, cond_signal or cond_broadcast to its return, the caller's own steps make exactly the changes of that primitive, each once and in that order, and no others |
| KernelCalls.SemaCalls | threads/synch.c:59-114 | from call to return sema_down takes one unit of its semaphore and of no other, and raises none; sema_up raises its semaphore once, no other, and takes none |
| KernelCalls.TryDownReturns | threads/synch.c:80-96 | sema_try_down returns after one step, which takes a unit exactly if the value is positive then and changes nothing otherwise |
| KernelCalls.AcquireReturns | threads/synch.c:181-189 | from its call to its return lock_acquire takes one unit of the lock's semaphore and of no other, and it returns with the caller as the holder and the only owner |
| KernelCalls.TryAcquireReturns | threads/synch.c:197-208 | lock_try_acquire returns with the lock held exactly if it was free when it looked, and changes nothing otherwise |
| KernelCalls.ReleaseReturns | threads/synch.c:215-222 | lock_release returns with the lock given up by the caller, after one sema_up on it and on no other semaphore |
| KernelCalls.WaitReturns | threads/synch.c:270-284 | over every run from a call of cond_wait to its return: it joins the queue with one entry, clears the holder, raises the lock, takes its own entry's unit, takes the lock and stores the holder, in that order; it returns only after that entry was signalled, as the holder and only owner |
| KernelCalls.SignalReturns | threads/synch.c:293-304 | from call to return cond_signal takes the entry that was first in the queue at the call and raises that entry's semaphore, or does nothing on an empty queue |
| KernelCalls.CallReturns | threads/synch.c:59-319 | every call ends: in every run in which its thread executes more regions than the call has, apart from tests that find no unit, it returns; sema_down, sema_up and sema_try_down have one, the lock calls and cond_signal two, cond_wait six, cond_broadcast three for each entry and one |
| KernelCalls.CreateReturns | threads/thread.c:155-203 | thread_create returns with the new thread READY at the end of the ready list, not started |
| KernelCalls.IdleStarts | threads/thread.c:370-398 | in every run from boot the idle thread raises the semaphore of thread_start exactly once before its loop, and changes nothing else |
| KernelCalls.CanGoOn | threads/thread.c:210-305 | in every reachable state the current thread can make its next step; in user code it can make exactly the calls whose assertions hold; interrupts are possible exactly where the code has them on |
| KernelCalls.SliceIsFour | threads/thread.c:117-131 | the first three ticks of a slice only count, the fourth preempts; then, and on thread_yield, the thread goes to the end of the ready list, unless it is the idle thread, and the first ready thread runs |
| KernelCalls.ExitReturnsNever | threads/thread.c:274-289 | a thread that has exited never gets the processor again, in any run |
| SynchSema.MoveKeepsBalance | threads/synch.c:59-114 | every move keeps the balance of every semaphore |
| SynchSema.MoveKeepsNoLost | threads/synch.c:59-114 | every move keeps the bound of the value by the woken threads |
| SynchLock.MoveKeepsLocks | threads/synch.c:181-222 | every move keeps mutual exclusion and the agreement of holder with the threads' positions, stale windows included |
| SynchCond.MoveKeepsConds | threads/synch.c:270-319 | every move keeps the conservation of tokens and the queue order of every condition variable |
| SchedInv.ApplyKeepsSched | threads/thread.c:210-305 | every event keeps the scheduler's part of the invariant, thread_ticks below TIME_SLICE included |
| KernelObject.Kernel.constructor | threads/thread.c:84-113 | after thread_init and the start of the idle thread new lists are linked as the boot state says, and the invariant holds |
| KernelObject.Kernel.PushReady | threads/thread.c:227-238 | the element of a thread on no list joins the end of the ready list; all lists stay well linked and apart |
| KernelObject.Kernel.PopReady | threads/thread.c:466-473 | the first thread's element leaves the ready list; all lists stay well linked and apart |
| KernelObject.Kernel.PushWaiting | threads/synch.c:67-70 | the element of a thread on no list joins the end of a semaphore's list; all lists stay well linked and apart |
| KernelObject.Kernel.PopWaiting | threads/synch.c:109-111 | the first waiter's element leaves the semaphore's list; all lists stay well linked and apart |
| KernelObject.Kernel.PushEntry | threads/synch.c:279-280 | a new element joins the end of the condition's list; all lists stay well linked and apart |
| KernelObject.Kernel.PopEntry | threads/synch.c:300-303 | the oldest element leaves the condition's list; all lists stay well linked and apart |
| KernelObject.Kernel.Handle | threads/interrupt.c:339-379 | every event, carried out on the links, takes the lists to what the step system says, keeps all of them well linked and apart, and keeps the invariant |
| KernelObject.Kernel.HandleAll | threads/interrupt.c:339-379 | the same for every legal run, event after event on the same links |
| KernelObject.RunFromBoot | threads/thread.c:84-113 | every run of the step system from boot can be carried out on the links |
| KernelObject.Kernel.OneElement | threads/thread.h:76-81 | the dual use of a thread's element, on the links: it is between the sentinels of the ready list exactly while the thread is ready and not idle, between those of a semaphore exactly while it waits there, blocked, and never in two lists |
| ListPool.Lists.InsertAt | lib/kernel/list.c:164-176 | of several lists over one pool of elements, one gets the element at its place; all stay well linked and no two share an element |
| ListPool.Lists.RemoveAt | lib/kernel/list.c:241-250 | the element leaves its list; all lists stay well linked and no two share an element |
| ListPool.Lists.Following | lib/kernel/list.c:78-85 | list_next gives the element after it, or the end |
| ListPool.Lists.Reset | lib/kernel/list.c:59-67 | list_init on a list in use empties it and leaves the others |
| Bitmap.Bitmap.Test | lib/kernel/bitmap.c:189-194 | the words, as numbers, refine a sequence of booleans: the bit read |
| Bitmap.Bitmap.Mark | lib/kernel/bitmap.c:151-160 | the bit is set and no other changes |
| Bitmap.Bitmap.Reset | lib/kernel/bitmap.c:163-172 | the bit is cleared and no other changes |
| BitTricks.TestBit | lib/kernel/bitmap.c:189-194 | on numbers: a word and a power of two have a common bit exactly if the word has that bit |
| BitTricks.OrBit | lib/kernel/bitmap.c:151-160 | on numbers: the bits of an or |
| BitTricks.AndBit | lib/kernel/bitmap.c:163-172 | on numbers: the bits of an and |
| BitTricks.NotBit | lib/kernel/bitmap.c:163-172 | on numbers: the bits of a complement of a given width |
| BitTricks.PowBit | lib/kernel/bitmap.c:40-46 | on numbers: a power of two has exactly one bit |
| Bitmap.Bitmap.SetMultiple | lib/kernel/bitmap.c:207-217 | exactly the given range gets the value |
| Bitmap.Bitmap.Contains | lib/kernel/bitmap.c:239-251 | true exactly if a bit of the range has the value |
| Bitmap.Bitmap.CountBits | lib/kernel/bitmap.c:222-235 | the number of such bits |
| Bitmap.Bitmap.Scan | lib/kernel/bitmap.c:281-294 | the least start of a run of the wanted length, or none exactly if there is none |
| Bitmap.Bitmap.ScanAndFlip | lib/kernel/bitmap.c:304-310 | the same, with that run flipped |
| PageAllocator.RunInHole | threads/palloc.c:105-144 | every run of free pages lies in a maximal one |
| PageAllocator.FailTogether | threads/palloc.c:71-144 | first fit and best fit fail on the same requests |
| PageAllocator.Pool.FindFirstFit | threads/palloc.c:71-75 | the lowest fit, marked |
| PageAllocator.Pool.FindNextFit | threads/palloc.c:77-103 | the lowest fit from the cursor on, else the lowest of all, else none exists; the cursor moves behind the pages, or to 0 if they end the pool, and stays without a fit |
| PageAllocator.Pool.FindBestFit | threads/palloc.c:105-144 | the leftmost of the shortest maximal free runs that are long enough, with its first pages marked, or none exactly if there is none |
| PageAllocator.Pool.Conservation | threads/palloc.c:152-245 | held and free pages make up the pool |
| PageAllocator.Pool.Serve | threads/palloc.c:152-200 | a grant takes pages that no live grant holds, chosen by the mode, at an address that maps back to them; a failure means no such run and changes nothing; set bits are exactly the held pages; the next-fit cursor moves behind the grant, in that mode only |
| PageAllocator.Pool.Release | threads/palloc.c:216-245 | exactly the freed pages are no longer held |
| PageAllocator.AddressRoundTrip | threads/palloc.c:277-325 | a page's address maps back to its pool and index |
| PageAllocator.PoolsApart | threads/palloc.c:315-325 | no page belongs to both pools |
| PageAllocator.BitmapPages | threads/palloc.c:295-303 | the fewest pages that hold a header of two words and one word for each 32 pages begun |
| PageAllocator.PallocInit | threads/palloc.c:50-69 | it panics exactly if a pool is too small for its own bitmap; else the kernel part starts at 1 MB, the user part behind it is half of the free pages up to the limit, and together they end at the end of RAM; in each part the bitmap takes the fewest pages that hold it and all the others are the pool; nothing is held and both cursors are 0 |
| PageAllocator.Allocator.GetMultiple | threads/palloc.c:152-200 | the request is served from the pool the flag names, by the mode, with the cursor that the mode leaves; the other pool stays; the invariant holds for every history |
| PageAllocator.Allocator.FreeMultiple | threads/palloc.c:216-245 | held pages go back to the pool their address belongs to; null or no pages change nothing; the cursors stay |
| PageAllocator.Allocator.GetPageIndex | threads/palloc.c:277-290 | the index of every page of either pool, 0 for other addresses |
| BlockStore.LiveDisjoint | threads/malloc.c:83-145 | live blocks are pairwise disjoint, past the header and inside their arena, and as large as asked for |
| BlockStore.BlocksDisjoint | threads/malloc.c:263-271 | any two blocks occupy disjoint bytes |
| BlockStore.BlockAligned | threads/malloc.c:246-261 | the checks in block_to_arena hold for every block |
| BlockStore.ArenaInUse | threads/malloc.c:220-236 | at rest every arena holds a live block |
| BlockStore.AllFree | threads/malloc.c:223-233 | a full free count means that every block of the arena is on the list |
| BlockStore.AddArena | threads/malloc.c:114-134 | dividing a new page into blocks keeps the invariant: each free block on its list exactly once, counts equal to the list |
| BlockStore.Take | threads/malloc.c:136-143 | handing out the first free block keeps it |
| BlockStore.Put | threads/malloc.c:205-221 | putting a block back keeps it |
| BlockStore.DropArena | threads/malloc.c:223-233 | giving back a wholly free arena keeps it |
| MallocSteps.PagesSuffice | threads/malloc.c:98-113 | the pages of a big request hold it and the header exactly if the 32-bit sum does not wrap |
| MallocSteps.WrappedRequest | threads/malloc.c:98-113 | the largest request wraps and gets one page |
| MallocSteps.GrantedRoom | threads/malloc.c:98-113 | pages newly granted by the page allocator are apart from every arena |
| MallocSteps.BlockToArena | threads/malloc.c:247-261 | for every live block the checks of block_to_arena hold of what is in memory, and the header says what kind of block it is |
| MallocSteps.OverrunExactly | threads/malloc.c:192-197 | the copy of realloc runs past the new block exactly if the request wrapped and the old block is larger than one page has room for |
| MallocSteps.OverrunExample | threads/malloc.c:192-197 | a block of two pages resized to the largest size: 8180 bytes are copied to where 4084 are |
| MallocSteps.OverrunDestroys | threads/malloc.c:192-197 | such a copy destroys the header of an arena on the next page |
| MemList.MemInsert | lib/kernel/list.c:164-176 | list_insert in byte memory: the links mirror with the element in its place, and nothing but nodes of the list is written |
| MemList.MemRemove | lib/kernel/list.c:241-250 | list_remove in byte memory: the links mirror without the element, and nothing but nodes of the list is written |
| HeapMemory.TakeMirror | threads/malloc.c:139-143 | the stores that take the first free block off its list and lower the count leave memory holding the new state, and every live block its bytes |
| HeapMemory.PutMirror | threads/malloc.c:222-226 | the stores that put a block in front of its list and raise the count leave memory holding the new state, and every other live block its bytes |
| HeapMemory.SlotPush | threads/malloc.c:133-136 | linking one more block of a new arena into the list writes no live block, header or other list |
| HeapMemory.BlockFillKeeps | threads/malloc.c:215-218 | filling a live block leaves the bookkeeping and the other live blocks |
| HeapMemory.PageFillKeeps | threads/palloc.c:235-237 | filling pages that hold no arena leaves the bookkeeping and the live blocks |
| Malloc.Heap.constructor | threads/malloc.c:68-80 | the loop writes the table of the powers of two from 16 to 1024 with empty lists, over whatever memory held |
| Malloc.BootHeap | threads/malloc.c:68-80 | on top of palloc_init: no heap exactly if that panics, else a valid one with nothing live and no page held |
| Malloc.Heap.InstallBig | threads/malloc.c:108-113 | the header of a big block is in memory, the block is live, the other live blocks keep their bytes |
| Malloc.Heap.LinkSlots | threads/malloc.c:133-136 | all blocks of a new arena are on the list in memory, in order; every live block keeps its bytes |
| Malloc.Heap.PopBlock | threads/malloc.c:139-143 | the first block of the list in memory is handed out and its arena's count lowered; every live block keeps its bytes |
| Malloc.Heap.UnlinkSlots | threads/malloc.c:230-233 | exactly the blocks of the wholly free arena leave the list in memory; every live block keeps its bytes |
| Malloc.Heap.BlockSizeOf | threads/malloc.c:168-177 | the size that the header in memory gives for a live block is that of the model |
| Malloc.Heap.Malloc | threads/malloc.c:82-145 | null for 0 bytes; else a block apart from all live ones, of the smallest descriptor that is large enough or of the pages needed, or null only if no such block is free and the pages are not to be had; a small block is the first of its free list, or the first of a new arena whose other blocks become the list; the other live blocks keep place, size and bytes, although headers and links are written into the same memory |
| Malloc.Heap.Free | threads/malloc.c:203-244 | exactly that block is no longer live; a small one goes to the front of its list, its arena goes back to the page allocator exactly if it is wholly free then, and a big one's arena goes; its bytes are 0xcc but for the list link; the others keep place, size and bytes through the fill, the link stores and the fill of released pages; the held pages of the pool stay those of the arenas and of other holders |
| Malloc.Heap.Realloc | threads/malloc.c:179-201 | null only for size 0, which frees, or if no block of the fitting size is free and the pages are not to be had, and then no block changes; else a block as malloc gives it, to which the first bytes, up to the smaller size, are moved; every other live block keeps its bytes; the copy overruns exactly in the case of MallocSteps.OverrunExactly, and memory is then what it was with those bytes copied |
| Malloc.Heap.NoLeak | threads/malloc.c:203-244 | no page is lost: in every state in which no block is live there is no arena, and the held pages of the pool are those that others hold |
| MallocSteps.NothingHeld | threads/malloc.c:223-241 | if nothing is live and each held page is an arena's or another holder's, there is no arena and only the others hold pages |
| Malloc.Heap.ClientGet | threads/palloc.c:152-200 | a request of another part of the kernel is answered as palloc_get_multiple answers it, leaves the allocator valid, shares no page with an arena, and the pages are recorded as that part's |
| Malloc.Heap.ClientFree | threads/palloc.c:216-245 | a release of pages that hold no arena fills them with 0xcc, takes exactly them from their holder, and leaves the allocator valid and the live blocks their bytes |
| MergeRuns.RunIsSorted | lib/kernel/list.c:344-362 | a natural run is sorted |
| MergeRuns.MergeIsSorted | lib/kernel/list.c:364-388 | merging sorted runs gives a sorted one |
| MergeRuns.MergeIsStable | lib/kernel/list.c:364-388 | merging keeps the order of equivalent elements |
| MergeRuns.PassCountsHalf | lib/kernel/list.c:390-425 | a pass over r runs counts r/2 rounded up |
| MergeRuns.PassLeavesRuns | lib/kernel/list.c:390-425 | a pass leaves at most r/2 runs, rounded up |
| MergeRuns.PassIsStable | lib/kernel/list.c:390-425 | a pass is a permutation that keeps the order of equivalent elements |
| MergeRuns.LastPassSorts | lib/kernel/list.c:390-425 | a pass that counts one run leaves a sorted list |
| MergeRuns.StableKeepsOrder | lib/kernel/list.c:390-425 | a stable rearrangement never exchanges two equivalent elements |
| LinkedList.Insert | lib/kernel/list.c:164-176 | the links mirror each other with the element in its place |
| LinkedList.Remove | lib/kernel/list.c:241-250 | the links mirror each other without the element |
| LinkedList.Splice | lib/kernel/list.c:178-201 | the stretch is moved within the list, all links mirrored |
| LinkedList.SpliceAcross | lib/kernel/list.c:178-201 | the stretch leaves one list and is in the other |
| ListSort.FindEndOfRun | lib/kernel/list.c:344-362 | the end of the first natural run |
| ListSort.InplaceMerge | lib/kernel/list.c:364-388 | the two stretches are merged in place |
| ListSort.List.MergePass | lib/kernel/list.c:393-425 | one pass over the linked list is the pass on sequences |
| ListSort.List.Sort | lib/kernel/list.c:390-425 | the list is well linked, holds the same elements, sorted and stable, for any strict weak order |
| ListSort.List.PushFront | lib/kernel/list.c:203-208 | the element is in front |
| ListSort.List.PushBack | lib/kernel/list.c:210-215 | the element is at the end |
| ListSort.List.PopFront | lib/kernel/list.c:252-260 | the first element is taken |
| ListSort.List.InsertOrdered | lib/kernel/list.c:427-443 | a sorted list stays sorted, with the element behind its equals |
| ListUnique.Reverse | lib/kernel/list.c:309-329 | the elements in reverse order, the links mirrored |
| ListUnique.Unique | lib/kernel/list.c:445-467 | of equivalent neighbours the first stays, the others are appended in order to the list for duplicates, if there is one; both lists well linked |
| ListUnique.KeptNext | lib/kernel/list.c:445-467 | reading on from the first element, which stays: the next one stays exactly if it is not equivalent to the last one that stayed, else it joins the duplicates |
| ListUnique.KeptPlusGone | lib/kernel/list.c:445-467 | what stays and what goes is what was there |
| ListUnique.KeptNeighbours | lib/kernel/list.c:445-467 | no two neighbours that stay are equivalent |
| ListUnique.KeptCovers | lib/kernel/list.c:445-467 | everything has an equivalent among what stays |
| ListUnique.KeptStrict | lib/kernel/list.c:445-467 | of a sorted list a strictly increasing one stays |
| HashTable.HashInit | lib/kernel/hash.c:22-39 | a new empty table with four buckets, or failure exactly if there is no memory for them |
| HashTable.Table.Insert | lib/kernel/hash.c:87-103 | the equal element, if there is one, and no change, else the element is added; with memory there are fewer than four elements for each bucket, and at least two unless there are only four buckets |
| HashTable.Table.Replace | lib/kernel/hash.c:105-120 | the equal element, if there is one, gives way to the new one |
| HashTable.Table.Find | lib/kernel/hash.c:122-128 | an equal element, or none exactly if there is none |
| HashTable.Table.Delete | lib/kernel/hash.c:130-146 | the equal element is removed; else nothing changes |
| HashTable.Table.MoveElem | lib/kernel/hash.c:383-389 | one round of the move: the next element is read before the links of this one are changed, the element leaves the chain that is being walked and joins the new bucket, all chains stay well linked |
| HashTable.Table.Rehash | lib/kernel/hash.c:331-393 | the same elements, moved link by link while the old chains are walked, each in the bucket of its hash; with memory fewer than four elements for each bucket, and at least two unless there are only four buckets; without memory no change |
| HashTable.Table.Clear | lib/kernel/hash.c:41-68 | empty; the destructor saw each element exactly once |
| HashTable.Table.OnePerClass | lib/kernel/hash.c:232-237 | the count is the number of elements, and no two are equal |
| HashTable.Iterator.Next | lib/kernel/hash.c:198-221 | the next of the elements still to come, or none at the end |
| HashTable.Visit | lib/kernel/hash.c:171-221 | the iteration idiom visits each element exactly once |
| HashBuckets.IdealCount | lib/kernel/hash.c:348-357 | a power of two, at least four, above a quarter of the elements, and at most half of them unless it is four |
| HashBuckets.RoundToPow2 | lib/kernel/hash.c:353-357 | the largest power of two not above the number |
| HashBuckets.TableUnequal | lib/kernel/hash.c:289-310 | no two elements of a table are equal, across buckets too |
| HashBuckets.MaskSelects | lib/kernel/hash.c:289-295 | the mask of find_bucket is the remainder by the bucket count |
| BitTricks.LowestBit | lib/kernel/hash.c:312-324 | turning off the lowest bit leaves 0 exactly for powers of two, else a smaller number above the same powers of two |
| Division.Nlz | lib/arithmetic.c:39-69 | the number of leading zeros |
| Division.NarrowQuotient | lib/arithmetic.c:71-119 | for a 32-bit divisor both hardware divisions have a quotient below 2^32 and give the result |
| Division.WideEstimate | lib/arithmetic.c:71-119 | for a larger divisor the hardware division does not trap and the estimate is the quotient or one more |
| Division.UDiv64 | lib/arithmetic.c:71-119 | the floor of n / d for every 64-bit n and d other than 0 |
| Division.UMod64 | lib/arithmetic.c:121-127 | the remainder exactly if it fits in 32 bits |
| Division.SDiv64 | lib/arithmetic.c:129-138 | truncated division exactly if not INT64_MIN / -1 |
| HeapSort.Heapify | lib/stdlib.c:89-117 | if both child subtrees are heaps the subtree becomes one; a permutation, nothing outside the subtree changes |
| HeapSort.BuildHeap | lib/stdlib.c:135-137 | the array becomes a heap |
| HeapSort.RootIsMax | lib/stdlib.c:139-143 | the root of a heap is its largest element |
| HeapSort.TakeLargest | lib/stdlib.c:139-143 | a heap prefix bounded by a sorted suffix becomes a shorter one |
| HeapSort.Sort | lib/stdlib.c:119-144 | a sorted permutation, for any total preorder |
| HeapSort.BinarySearch | lib/stdlib.c:164-198 | on a sorted array a match exactly if there is one |
| Stdio.BufferFits | lib/stdio.c:435-491 | the digits, zeros and marks of every 64-bit value, base, flag and precision fit the 64-byte buffer |
| Stdio.StoreDigits | lib/stdio.c:466-477 | the digit loop stays inside the buffer and stores the digits, lowest first, with the group commas |
| Stdio.StoreZeros | lib/stdio.c:479-489 | the precision and the # flag, inside the buffer |
| Stdio.FormatInteger | lib/stdio.c:428-510 | the characters given to output: padding, sign, mark, zeros, digits, padding |
| Stdio.Atoi | lib/stdlib.c:7-39 | the number that Stdio.AtoiMeaning speaks of |
| Stdio.AtoiMeaning | lib/stdlib.c:7-39 | for every string: white space, a sign or none, digits, and whatever follows them; the result is the decimal value of the digits with that sign, or that it leaves the range of int |
| Stdio.RoundTrip | lib/stdio.c:428-510 | atoi reads back every int that %d prints, for every width, precision and set of flags, without overflow, exactly if the grouping flag is off or the number is below a thousand |
| Stdio.BufferMeansValue | lib/stdio.c:466-489 | in every base, with every precision and the # flag, the digits printed mean the value |
| Stdio.GroupingAddsCommas | lib/stdio.c:466-477 | the grouping flag only adds commas |
| Stdio.FieldWidth | lib/stdio.c:491-509 | the field has the wanted width, or its content's if that is larger, exactly if no padding is needed or not both the 0 and the - flag are set |
| Stdio.FieldText | lib/stdio.c:443-509 | the field is, in this order: spaces, the sign, 0x or 0X, zeros, digits, spaces; - for negative numbers, + or a space by the flags for others; the mark exactly for a nonzero hexadecimal number with the # flag, in the letter case of the conversion; only digits of the base, in that case, and commas with the group flag |
| Stdio.NoNeedlessZeros | lib/stdio.c:479-489 | at least as many characters as the precision wants, and no leading zero beyond that but the one that the # flag gives an octal number |
| Stdio.GroupPlaces | lib/stdio.c:466-477 | with the group flag there is a comma behind each four hexadecimal or three other digits, counted from the lowest, and nowhere else |
| Stdio.BoundedOutput.Put | lib/stdio.c:42-50 | a character is stored if there is room, and counted |
| Stdio.Vsnprintf | lib/stdio.c:17-40 | as many characters as fit before a terminator, nothing beyond the size, the full length returned |
| Ustar.CalculateChksum | lib/ustar.c:33-51 | the sum that Ustar.ChksumMeaning speaks of |
| Ustar.ChksumMeaning | lib/ustar.c:33-51 | the checksum is the sum of the bytes of the header with eight spaces in place of the checksum field |
| Ustar.SumSame | lib/ustar.c:33-51 | the checksum does not depend on its own field |
| Ustar.StripAntisocialPrefixes | lib/ustar.c:53-68 | the name splits into a first part made of "/", "./" and "../" and a rest that starts with none of them; the result is that rest, or "." if it is empty or ".." |
| Ustar.StripSplits | lib/ustar.c:53-68 | every name has such a split, at the place where the loop stops |
| Ustar.StripKeeps | lib/ustar.c:53-68 | a name other than "" and ".." that starts with none of "/", "./" and "../" is returned unchanged |
| Ustar.StripIdempotent | lib/ustar.c:53-68 | a stripped name has no such prefix, and stripping it again changes nothing |
| Ustar.ParseOctalField | lib/ustar.c:113-148 | the value of the field, or a failure, as Ustar.OctalMeaning says |
| Ustar.OctalMeaning | lib/ustar.c:113-148 | a field is accepted exactly if it starts with one or more octal digits, ended by a space or a zero byte inside the field, whose number fits in 32 bits; that number is the result |
| Ustar.OctalRoundTrip | lib/ustar.c:113-148 | an octal field reads back as the number that %0No printed |
| Ustar.SetOctal | lib/ustar.c:95-100 | snprintf with %0No, through format_integer and vsnprintf, stores exactly the N digits and the terminator in its field |
| Ustar.MakeHeader | lib/ustar.c:70-111 | it fails exactly for a long name; every byte of the header; parsing it gives the stripped name, the type and the size |
| Ustar.ParseHeader | lib/ustar.c:161-210 | the meaning of the header, error by error, as Ustar.ParseExactly says |
| Ustar.ParseExactly | lib/ustar.c:161-210 | a block of zeros is the end of the archive; of any other header each error is reported exactly if that check is the first that fails, each check in terms of the bytes at its place; a header that passes all gives the stripped name, the type and the size of its fields |
| Ustar.ComposedFields | lib/ustar.c:70-111 | the bytes of a composed header: the name and zeros behind it, the mode 0644 or 0755, owner and group 0, size, time and checksum as octal fields, the type flag, magic and version |
| Ustar.ComposedMeaning | lib/ustar.c:161-210 | a composed header is accepted and gives back name, type and size, 0 for directories |
| Ustar.ChangeRejected | lib/ustar.c:181-195 | changing any one byte outside the checksum field of an accepted header makes it rejected |
| Intq.Queue.Put | devices/intq.c:53-69 | the byte joins the end of the queue; a thread waiting for a byte is woken |
| Intq.Queue.Get | devices/intq.c:31-51 | the oldest byte leaves; a thread waiting for room is woken |
| Intq.Queue.ThreadGetc | devices/intq.c:31-51 | the thread takes the oldest byte, or blocks on an empty queue |
| Intq.Queue.ThreadPutc | devices/intq.c:53-69 | the thread adds the byte, or blocks on a full queue |
| Intq.Queue.HandlerPutc | devices/intq.c:53-69 | the handler adds a byte to a queue that is not full |
| Intq.Queue.HandlerGetc | devices/intq.c:31-51 | the handler takes a byte from a queue that is not empty |
| Intq.Queue.InOrder | devices/intq.c:31-105 | in every history the bytes removed are a prefix of those added, at most 63 wait, and a recorded waiter's condition is still false |

## Left out

- Semaphore values are unbounded numbers: the wrap of a 32-bit counter after 2^32 ups is not modelled.
- Freeing a dying thread's page inside the switch, `all_list`, thread names and priorities, and the stack checks of `thread_current`.
- Priority scheduling, donation and MLFQS, which the kernel only stubs.
- `thread_create` is two steps, the creation of the blocked thread and its `thread_unblock`; its page allocation and stack frames are not modelled.
- The buddy system: the mode runs first fit, as in the code; `buddy_system_free` is not modelled.
- The locks around the page allocator, the block allocator and the lists: each operation is one step there.
- PAL_ZERO, and what other holders write into their pages.
- The lock words of the descriptor table, which no operation modelled here reads.
- Malloc.Heap.Realloc: when the copy overruns, the model ends with the copy, because what the following `free` does depends on the memory behind the block; MallocSteps.OverrunExactly says exactly when that is.
- `calloc`, whose product check does not catch every wrapped product.
- `bitmap_flip`, `bitmap_set_all`, the reading and writing of bitmap files, and `bitmap_dump`.
- BlockStore.LiveDisjoint: for requests whose page rounding does not wrap; see MallocSteps.PagesSuffice.
- `list_max`, `list_min` and `list_size`.
- `hash_apply`, which visits like HashTable.Visit, and `hash_destroy`.
- The hash functions themselves; the table is proved for any hash that respects equality.
- `smod64`, and the 64-bit remainder where it does not fit in 32 bits.
- HeapSort.Sort: elements are moved as a whole, not byte by byte; `qsort` and `bsearch` only pass a comparison on.
- Stdio.Vsnprintf: what the format prints is a parameter, and the returned length is an unbounded number where the code has an int.
- Parsing of format strings, `format_string` and the varargs of `__vprintf`.
- Several threads blocked on one side of an interrupt queue.
- Partitions, the device drivers, assembly code, examples and host utilities.
