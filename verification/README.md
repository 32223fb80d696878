# The scheduling core of libgomp, and two pieces of the Java front end

The project models how libgomp runs explicit tasks with dependences, hands out loop iterations, keeps ordered sections in
order, recycles work shares and places threads, and how the Java front end searches exception ranges and writes and reads
constant pools. Every model follows the branches, constants and edge cases of the C code.

Concurrent code is a state machine: one step is one critical section, one atomic access or one wake-up, and the theorems
speak of every reachable state, for any number of threads and any interleaving. Next to a state machine stands a class
with the C code's fields; its methods contain the C code's loops and pointer surgery and are proved equal to the steps of
the state machine. (`WorkShares.Team` instead runs its compare-and-swap loop against what other threads may do in between.)
Sequential code that works in place is modelled by methods on arrays and objects, proved against what the code is for.

| files | what they model |
|---|---|
| `TaskGraph`, `TaskScheduler`, `TaskRings`, `TaskTeam` | `task.c`: the dependence graph, the team as a state machine, rings of tasks as links, the team's fields updated in place |
| `HashTable`, `PrimeTable`, `Primes`, `PrimeCertificates` | `hashtab.h`: the table, division by multiplicative inverse, and why the sizes are prime |
| `OrderedLoop`, `OrderedShare`, `OrderedBlocks`, `OrderedStatic`, `OrderedStaticLoop` | `ordered.c` with the dynamic, guided and static loops around it |
| `WorkShares` | `work.c` |
| `IterDynamic`, `IterGuided`, `IterStatic`, `IterStaticExact`, `IterStaticReturned`, `LoopInit`, `LoopRuns`, `LoopDispatch` | `iter.c`, and the loops that `gomp_loop_init` sets up for it |
| `Balance`, `BinLpt`, `Graham` | the balancers in `loop.c` and their bounds |
| `Placement` | the place computation in `team.c` |
| `EhRanges` | `except.c` |
| `PoolCells`, `PoolRefs`, `PoolBytes`, `PoolVerify`, `PoolFormat`, `ConstantPool` | `constants.c`, `jcf-reader.c`, `jcf-io.c` |
| `Sequences`, `Arithmetic`, `Longs` | shared facts, and 64-bit arithmetic |

Standards that the code implements: section 2.11.1.1 (depend clause) and section 2.5.2 (thread affinity) of the OpenMP API
4.0, and section 4.4 of the Java Virtual Machine Specification.

Places where the code does less than one might expect:

- The locked and the compare-and-swap form of dynamic scheduling hand out the tiling of the loop if and only if `end - start`
  is a `long`; otherwise the first call hands out the whole loop (`IterDynamic.TilingIff`). If the product of chunk size and
  step leaves the longs, the first block is right if and only if what is stored instead is at least the whole loop
  (`IterDynamic.ProductIff`); with a product that wraps to 0 all blocks are empty (`IterDynamic.EmptyBlocks`).
- Guided scheduling with a step of 1 or -1 hands out the right blocks in every run if and only if the sum that rounds the
  share up stays in 64 bits or the chunk is at least the share (`IterGuided.TilingIff`); otherwise blocks may grow
  (`IterGuided.OneByOne`). For other steps it is enough that the difference is a `long`; the step count is right if and only
  if it is (`IterGuided.StepsIff`). Otherwise a loop may be handed out whole (`IterGuided.WholeAtOnce`), or a block may end
  far beyond the loop (`IterGuided.BeyondEnd`).
- The static schedule counts the iterations correctly if and only if no sum leaves the longs or the step is 1 or -1
  (`IterStatic.CountIsIterations`). Where it does, the team goes through every value of the loop variable exactly once and
  through nothing else if and only if the end of the last block, `next + n * incr`, is a `long` and, with a chunk size, no
  start that a thread computes past the last block wraps around 2^64 into the loop (`IterStaticReturned.RightIff`). A loop by
  fours up to the largest `long` loses its last iteration, or without a chunk size its second half
  (`IterStaticReturned.LastIterationLost`, `IterStaticReturned.HalfLost`); six threads that share one iteration in chunks of
  2^62 run it twice (`IterStaticExact.SixThreads`).
- In the largest table size, and in no other, the sum of slot and probe step can wrap around 2^32, and the next slot is right
  if and only if it does not (`HashTable.WrapIff`, `HashTable.LastRowWraps`).
- A static ordered loop without iterations leaves `ordered_release[0]` posted; every other loop leaves all semaphores at 0
  (`OrderedStatic.TokenStops`).
- Guided scheduling with a chunk of 0 reaches the end if and only if the step divides the distance
  (`IterGuided.ReachesEnd`).
- `find_class_or_string_constant` with a null name on an empty pool stores at index 0, and gives another index the next
  time; this is the only input with index 0 (`PoolRefs.NullClass`).
- With 64-bit words, a pool that the interning functions made passes `verify_constant_pool` if and only if no reference or
  name-and-type has a second index of 32768 or more, because the parser shifts that index into the sign bit of an `int`
  (`PoolVerify.VerifyIff`); one that does not is 32768 numbers and then a field (`PoolVerify.HighSecond`).
- A pool whose last constant starts less than nine bytes before the end of the file is not read back
  (`PoolBytes.RoundTripIff`), for instance one number and nothing after it (`PoolVerify.EndOfFile`).

## Model

| member | source | states |
|---|---|---|
| TaskGraph.SpawnInv | src/libgomp/task.c:258-366 | processing a whole depend clause keeps the graph invariant: forward edges between conflicting siblings only, exact counters, chains with the latest out and the unfinished ins, and a path of dependers edges between any two unfinished conflicting siblings |
| TaskGraph.RetireInv | src/libgomp/task.c:447-552 | the end of a task keeps that invariant, although it unlinks the task from its chains and drops its edges |
| TaskGraph.ReadyIff | src/libgomp/task.c:361-366 | num_dependees is 0 exactly if no earlier conflicting sibling is unfinished |
| TaskGraph.MustDeferIff | src/libgomp/task.c:149-172 | the undeferred test, which looks only at what the chains keep, is true exactly if some unfinished deferred sibling conflicts with the depend clause |
| TaskGraph.PathForward | src/libgomp/task.c:308-350 | the dependence graph has no cycle: every path leads to a later task |
| TaskGraph.BlockedHasRunnable | src/libgomp/task.c:475-500 | behind every blocked task there is an unfinished sibling that waits for nobody |
| TaskScheduler.StepInv | src/libgomp/task.c:112-834 | every critical section of every operation keeps the invariant of the team and follows only good pointers |
| TaskScheduler.ReachableSteps | src/libgomp/task.c:112-834 | a run can go on with any enabled step, and an enabled step is always safe |
| TaskScheduler.DependOrder | src/libgomp/task.c:258-366 | in every run a task, deferred or not, has started only if every earlier sibling with a conflicting depend entry has finished |
| TaskScheduler.QueuedIff | src/libgomp/task.c:475-500 | and it is never kept back: an unfinished waiting task is in the team queue exactly if every earlier conflicting sibling has finished |
| TaskScheduler.TaskwaitComplete | src/libgomp/task.c:752-786 | taskwait finds an empty children ring only when no child is left, not even a blocked one that is in no ring |
| TaskScheduler.TaskwaitSleeps | src/libgomp/task.c:765-834 | no wake-up is lost: a thread asleep without a post has unfinished children, none of them is queued, and each that is not blocked is being run |
| TaskScheduler.BarrierComplete | src/libgomp/task.c:645-728 | the barrier opens only when every explicit task has ended, blocked and undeferred ones included |
| TaskScheduler.QueueFifo | src/libgomp/task.c:396-408 | no task overtakes another in the team queue: every step keeps the order of those that stay, new and freed ones come behind, and a thread at the barrier takes the first |
| TaskScheduler.NeverStuck | src/libgomp/task.c:635-834 | in every reachable state some thread is in user code or can take a step |
| TaskTeam.Team.MustDeferTest | src/libgomp/task.c:149-172 | the nested loops decide exactly whether some chain entry stops the new task |
| TaskTeam.Team.AddDepend | src/libgomp/task.c:280-359 | one round of the depend loop, with its redundant flags, list surgery and dependers vectors, has the effect of one step of the graph |
| TaskTeam.Team.CreateTask | src/libgomp/task.c:216-408 | the deferred branch of GOMP_task as a step of the state machine |
| TaskRings.LinkBefore | src/libgomp/task.c:367-379 | a task linked in before the head of a circular doubly linked list is its last task, or its first one if the head is moved |
| TaskRings.Unlink | src/libgomp/task.c:428-436 | joining a task's neighbours, with the head moved on or cleared, takes that task and no other out of its ring, wherever it is |
| TaskRings.Rotate | src/libgomp/task.c:424-425 | moving the head to the next task makes the first task the last |
| TaskRings.ChangeRing | src/libgomp/task.c:572-598 | the children of all parents share their links: changing those of one ring leaves all other rings alone |
| TaskTeam.Team.InsertChild | src/libgomp/task.c:367-379 | the four link assignments, or the two for an empty ring, put a task in front of its parent's children |
| TaskTeam.Team.InsertQueue | src/libgomp/task.c:396-408 | the same assignments without moving the head put it at the end of the queue |
| TaskTeam.Team.UnlinkQueue | src/libgomp/task.c:428-436 | the queue without the task, its head moved on or NULL |
| TaskTeam.Team.UnlinkChild | src/libgomp/task.c:578-592 | the parent's children without the task, and whether the ring is now empty |
| TaskTeam.Team.TaskRunPre | src/libgomp/task.c:420-445 | the surgery on the links of both rings takes the task out of the queue, makes it the last of its parent's children if it was the first, and turns it TIED, as the step of the state machine does on sequences |
| TaskTeam.Team.HandleDependHash | src/libgomp/task.c:447-473 | unlinking entry by entry, guided by the redundant flags, removes the task from exactly the chains that hold it |
| TaskTeam.Team.TaskHandleDepend | src/libgomp/task.c:475-561 | the loop over the dependers counts down, inserts and wakes as one step of the state machine |
| TaskTeam.Team.TaskRemoveParent | src/libgomp/task.c:572-598 | the surgery on the links takes the task out of its parent's ring, and the parent is woken exactly if it sleeps and the ring is now empty |
| TaskTeam.Team.TaskFinish | src/libgomp/task.c:698-725 | everything done under the lock after a deferred task has run |
| TaskTeam.Team.TaskwaitLock | src/libgomp/task.c:752-786 | one pass through the loop of GOMP_taskwait: the thread leaves only if every child has ended, helps only with a queued child of its own, and sleeps only if it has unfinished children and none of them is queued; the invariant of the team is kept |
| TaskTeam.Team.TaskwaitHelped | src/libgomp/task.c:806-833 | the end of a child that was run from inside GOMP_taskwait is that step, and keeps the invariant of the team |
| TaskTeam.Team.BarrierLock | src/libgomp/task.c:645-656 | arrival at the barrier: it opens only if this was the last thread and every explicit task has ended, and the invariant of the team is kept |
| TaskTeam.Team.BarrierTakeTask | src/libgomp/task.c:660-690 | the head pointer of the queue leads to its first task, which the thread takes; the invariant of the team is kept |
| TaskTeam.Team.BarrierHelped | src/libgomp/task.c:698-725 | the end of a task at the barrier and the completion test are that step, and keep the invariant of the team |
| PrimeTable.Mod1Correct | src/libgomp/hashtab.h:178-190 | multiplication by the inverse, with its 32-bit wrap-around, is the remainder for every 32-bit dividend |
| PrimeTable.RowMods | src/libgomp/hashtab.h:101-133 | every row has exact inverses of prime and prime - 2, so the home slot is below the size and the probe step lies in 1 .. size - 2 |
| PrimeTable.HigherPrimeIndex | src/libgomp/hashtab.h:138-160 | the binary search finds the first prime that is at least n, and runs off the table exactly above the last prime |
| PrimeTable.SameRow | src/libgomp/hashtab.h:281-300 | a table rebuilt at its own size gets its own row again |
| PrimeCertificates.TablePrime | src/libgomp/hashtab.h:101-133 | every size in the table is prime, so double hashing visits every slot |
| HashTable.ProbeVisitsAll | src/libgomp/hashtab.h:334-345 | a probe path visits every slot within size steps |
| HashTable.ProbeNext | src/libgomp/hashtab.h:334-345 | index += hash2 with one conditional subtraction stays in 32 bits and walks the probe path, in every row but the last |
| HashTable.WrapIff | src/libgomp/hashtab.h:334-345 | for any size, the 32-bit sum and the subtraction give the next slot if and only if the sum does not wrap |
| HashTable.LastRowWraps | src/libgomp/hashtab.h:130-132 | a hash for which it does, in the last row |
| HashTable.SearchEnds | src/libgomp/hashtab.h:320-348 | a search that stops at an EMPTY slot or at the key decides whether the key is stored |
| HashTable.Placed | src/libgomp/hashtab.h:405-418 | filling a free slot of the key's own path adds one binding and leaves every stored key reachable |
| HashTable.Cleared | src/libgomp/hashtab.h:422-431 | a tombstone removes one binding and closes no probe path |
| HashTable.RoomForHalf | src/libgomp/hashtab.h:281-300 | whichever way the table is resized, at most half of its slots will be used |
| HashTable.Htab.constructor | src/libgomp/hashtab.h:221-237 | a new table is the empty map |
| HashTable.Htab.Find | src/libgomp/hashtab.h:319-348 | htab_find is map lookup |
| HashTable.Htab.FindSlot | src/libgomp/hashtab.h:355-404 | the slot of the key, exactly if it is stored |
| HashTable.Htab.Insert | src/libgomp/hashtab.h:355-420 | find_slot with INSERT and the caller's store is map update, through expansion exactly at three quarters full, and returns the previous entry |
| HashTable.Htab.InsertNoExpand | src/libgomp/hashtab.h:368-418 | the slot is that of the key, else the first tombstone on its path, else the EMPTY slot that ends it; no other slot changes |
| HashTable.Htab.ClearSlot | src/libgomp/hashtab.h:422-431 | map removal, or abort for a slot without an entry |
| HashTable.Htab.Expand | src/libgomp/hashtab.h:280-315 | keeps the map, drops all tombstones and leaves at most half of the slots used; a table more than half full, or less than an eighth and above 32 slots, gets the first prime that is at least twice its entries, any other keeps its size |
| HashTable.Htab.FindEmptySlotForExpand | src/libgomp/hashtab.h:246-272 | ends at the first EMPTY slot of the probe path |
| OrderedLoop.StepInv | src/libgomp/ordered.c:34-142 | every step of every thread keeps the queue, token and order invariant |
| OrderedLoop.SectionsInOrder | src/libgomp/ordered.c:190-222 | in every interleaving of an ordered dynamic or guided loop, sections exclude one another and run in iteration order |
| OrderedLoop.OneToken | src/libgomp/ordered.c:34-142 | owner, posted semaphores and threads in transit together are exactly one token while a block is held, and none otherwise |
| OrderedLoop.LoopEnds | src/libgomp/loop.c:900-934 | when all threads are done every block has been given out and all release semaphores are 0 |
| OrderedLoop.NeverStuck | src/libgomp/ordered.c:190-222 | until then some step is enabled |
| OrderedShare.Share.First | src/libgomp/ordered.c:34-61 | gomp_ordered_first on the circular array is the step of the protocol |
| OrderedShare.Share.Last | src/libgomp/ordered.c:65-95 | the same for gomp_ordered_last |
| OrderedShare.Share.Next | src/libgomp/ordered.c:100-142 | the same for gomp_ordered_next |
| OrderedShare.Share.SyncCheck | src/libgomp/ordered.c:190-217 | a thread that gomp_ordered_sync lets through has its turn: it is first in the queue, no other thread is inside or on its way in, and no semaphore is posted; for one that has to wait, its semaphore is posted if and only if it is first in the queue |
| OrderedShare.Share.SyncOwn | src/libgomp/ordered.c:217-221 | after the wait, taking the token gives the thread its turn |
| OrderedBlocks.DynamicMatches | src/libgomp/loop.c:900-916 | in an ordered dynamic loop gomp_iter_dynamic_next_locked gives a block exactly when the protocol has one left, the caller's loop over it goes through the iterations between the protocol's next two cuts, and the answer chooses the protocol's step, here and in the start at lines 713-735 |
| OrderedBlocks.GuidedMatches | src/libgomp/loop.c:918-934 | the same for an ordered guided loop, whose start is at lines 738-760 |
| OrderedBlocks.CutsExist | src/libgomp/iter.c:149-363 | for every loop the dynamic and the guided blocks are cut at iterations, and a protocol that starts with these cuts is supplied |
| OrderedStatic.BlocksInOrder | src/libgomp/ordered.c:148-184 | passing the token to thread id + 1 visits the blocks of a static loop in iteration order, one section at a time |
| OrderedStatic.TokenStops | src/libgomp/ordered.c:148-184 | when all threads are done the token rests at the last block's thread and no semaphore is posted, exactly if the loop had an iteration; otherwise release 0 stays posted |
| OrderedStaticLoop.StartMatches | src/libgomp/loop.c:695-711 | the first call of gomp_iter_static_next decides between a block and the end as the protocol's start does |
| OrderedStaticLoop.MoreMatches | src/libgomp/loop.c:884-898 | its later return codes and static_trip, chunked or not, pass the token on and choose the next block exactly as the protocol does |
| OrderedStatic.StaticNeverStuck | src/libgomp/ordered.c:166-222 | until then some step is enabled |
| WorkShares.StepSafe | src/libgomp/work.c:37-300 | no step reads a wrong member of the link union or follows a bad pointer, despite the pushes that run at the same time |
| WorkShares.StepInv | src/libgomp/work.c:37-300 | every access keeps the invariant of the team's work shares |
| WorkShares.BlocksPartition | src/libgomp/work.c:37-86 | list for allocation, free list, what has been cut off, the shares in use and the one block being pushed, none with a block twice, partition the allocated blocks |
| WorkShares.OneShare | src/libgomp/work.c:171-203 | one thread creates each share, and threads at the same construct have the same share |
| WorkShares.NeverUsedAfterFree | src/libgomp/work.c:267-300 | every share that a thread may still dereference is in use |
| WorkShares.FreedInOrder | src/libgomp/work.c:209-300 | a share is returned by the last thread to finish the construct after it, in the order of the constructs, and so once |
| WorkShares.NeverStuck | src/libgomp/work.c:171-300 | until all threads have gone through all constructs some step is enabled |
| WorkShares.Team.AllocWorkShare | src/libgomp/work.c:37-86 | takes from the allocation list, else from behind the head of the free list, else from new blocks twice as many; the head of the free list stays |
| WorkShares.Team.FreeWorkShare | src/libgomp/work.c:139-164 | whatever other threads push or cut off between a read and the swap, the loop puts the block in front of the free list that the successful swap finds |
| IterDynamic.TilingTiles | src/libgomp/iter.c:149-176 | the blocks tile start .. end, all but the last of full width |
| IterDynamic.TilingIff | src/libgomp/iter.c:149-254 | the locked and compare-and-swap forms hand out that tiling in every run if and only if end - start is a long |
| IterDynamic.FirstBlockIff | src/libgomp/iter.c:149-176 | under the same condition the first block is right; otherwise it is the whole loop |
| IterDynamic.SameTiling | src/libgomp/iter.c:149-254 | where the loop allows them, locked, compare-and-swap and fetch-and-add forms hand out one and the same tiling in every interleaving, and all of it once every thread has seen its first false |
| IterDynamic.FromInit | src/libgomp/loop.c:464-510 | so does every loop that gomp_loop_init sets up, in either direction, if the chunk size times the step is a long or what is stored is at least the whole loop; the tiling ends at end, or is empty if the loop has no iteration |
| LoopRuns.NothingToRun | src/libgomp/loop.c:464-510 | if end is not beyond start in the direction of the step, no run of any form hands out a block, whatever the chunk size |
| LoopRuns.DynamicRuns | src/libgomp/loop.c:464-510 | from start, end, step and chunk size alone: in every run the blocks follow one another from start, have chunk size iterations or all that are left, and go through no value twice; when every thread has had its first false they end at end and have gone through start, start + step, start + 2 steps and so on before end, and through nothing else |
| LoopRuns.GuidedRuns | src/libgomp/loop.c:464-510 | the same for guided loops, each of whose blocks is the fair share |
| LoopRuns.StaticRuns | src/libgomp/loop.c:464-510 | the same values for static loops, under the condition of `IterStaticReturned.RightIff` |
| IterDynamic.ProductIff | src/libgomp/loop.c:464-480 | if chunk size times step leaves the longs, the first block is right if and only if the wrapped product is at least the whole loop |
| IterDynamic.EmptyBlocks | src/libgomp/loop.c:464-480 | a chunk size of 2^62 and a step of 4 are stored as a chunk of 0, and every call of the locked form then gives an empty block and leaves next where it is |
| IterDynamic.NoWrap | src/libgomp/loop.c:479-508 | where the mode test permits fetch-and-add, next passes the end by less than (nthreads + 1) chunks and never wraps, upwards or downwards |
| IterDynamic.Share.NextLocked | src/libgomp/iter.c:149-176 | the locked form is its step |
| IterDynamic.Share.NextAdd | src/libgomp/iter.c:186-216 | the fetch-and-add form is its step |
| IterDynamic.Share.NextSwap | src/libgomp/iter.c:217-254 | whatever others do between load and swap, the block returned starts where next was at the swap |
| IterGuided.TilingTiles | src/libgomp/iter.c:334-363 | guided blocks tile the loop exactly and never grow |
| IterGuided.TilingFair | src/libgomp/iter.c:345-352 | a block takes the least number q of steps that is at least the chunk and with which nthreads blocks would cover the n whole steps that remain, or all that is left if q exceeds n |
| IterGuided.FairIsOne | src/libgomp/iter.c:345-352 | that decides where a block ends |
| IterGuided.Halves | src/libgomp/iter.c:334-363 | any nthreads consecutive blocks at least halve the whole steps that remain |
| IterGuided.BlockCount | src/libgomp/iter.c:334-411 | a loop of n whole steps takes at most nthreads * (floor(log2 n) + 1) + 1 blocks |
| IterGuided.SameTiling | src/libgomp/iter.c:368-411 | every interleaving hands out the one tiling, in order and completely, if the difference is a long, or the step is 1 or -1 and the share of the first block is rounded up right |
| IterGuided.TilingIff | src/libgomp/iter.c:368-411 | with a step of 1 or -1 the team hands out that tiling in every run if and only if the rounding-up sum of the first block stays in 64 bits or the chunk is at least the share |
| IterGuided.ComputedIff | src/libgomp/iter.c:334-363 | under the same condition, and no other, one block is right |
| IterGuided.StepsIff | src/libgomp/iter.c:334-350 | the quotient of 64-bit arithmetic is the number of steps if and only if the difference is a long or the step is 1 or -1 |
| IterGuided.WholeAtOnce | src/libgomp/iter.c:334-350 | a loop by twos for which it is not, and which is handed out whole |
| IterGuided.OneByOne | src/libgomp/iter.c:334-350 | a loop by ones for which it is, and yet the rounding-up sum wraps: blocks of 1, 1, 1 and then 2^62 - 1 iterations |
| IterGuided.BeyondEnd | src/libgomp/iter.c:334-350 | a loop by fours whose first block ends far beyond the end of the loop |
| IterGuided.ReachesEnd | src/libgomp/iter.c:334-363 | the end is reached exactly if the chunk is at least 1 or the step divides the distance |
| IterGuided.Share.NextLocked | src/libgomp/iter.c:334-363 | the locked form returns the block from next, the fair share where the steps are counted and rounded right, and moves next to its end |
| IterGuided.Share.NextSwap | src/libgomp/iter.c:368-411 | the compare-and-swap loop under interference returns the fair share of the place where next was at the swap |
| IterStatic.CountIsIterations | src/libgomp/iter.c:72-114 | the number of iterations, computed in 64 bits with truncating division and either sign of the step, is right if and only if no sum leaves the longs or the step is 1 or -1 |
| IterStatic.PointIsLong | src/libgomp/iter.c:95-99 | the start values: the loop variable of every iteration is computed without wrap-around |
| IterStatic.ThreadGets | src/libgomp/iter.c:105-141 | if no surplus start wraps into the loop, a thread gets exactly the blocks congruent to its number, in increasing order |
| IterStaticExact.ExactlyOnceIff | src/libgomp/iter.c:105-141 | in terms of iteration numbers, for every 64-bit count n and long chunk: each number below n is handed out exactly once if and only if none of the nthreads - 1 starts computed past the last block wraps below n |
| IterStaticExact.OwnerOf | src/libgomp/iter.c:105-141 | without such starts iteration x goes to thread x / chunk mod nthreads on its trip x / chunk / nthreads, and to no other |
| IterStaticExact.UnchunkedExactly | src/libgomp/iter.c:63-104 | in terms of iteration numbers, without a chunk size each is handed out exactly once |
| IterStaticReturned.RightIff | src/libgomp/iter.c:63-141 | in terms of the longs that are returned, for every loop whose count is right: the callers' loops go through every value of the loop variable exactly once and through no other if and only if the end of the last block is a long and, with a chunk size, none of those starts wraps |
| IterStaticReturned.LastIterationLost | src/libgomp/iter.c:130-134 | a loop by fours in chunks of 1 with a right count and without such starts, whose last iteration is given to thread 1 with an end below zero and so is lost |
| IterStaticReturned.HalfLost | src/libgomp/iter.c:95-99 | without a chunk size the whole block of thread 1 is lost in the same way |
| IterStaticReturned.TooFew | src/libgomp/iter.c:72-114 | a count that is too small loses a value, whatever the chunk |
| IterStaticReturned.RightByAccident | src/libgomp/iter.c:72-104 | a count that is too large for which the returned bounds are right all the same |
| IterStaticExact.SixThreads | src/libgomp/iter.c:118-127 | one iteration, six threads and a chunk of 2^62 is an input for which it is not |
| IterStaticExact.FitsIsEnough | src/libgomp/iter.c:118-127 | it is enough that n + (nthreads + 1) * chunk fits in 64 bits |
| IterStatic.UnchunkedOnce | src/libgomp/iter.c:63-104 | the unchunked blocks cover every iteration number exactly once |
| IterStatic.CutsTile | src/libgomp/iter.c:63-104 | unchunked blocks run from 0 to n and differ in size by at most one |
| IterStatic.EarlierMore | src/libgomp/iter.c:77-87 | the extra iterations go to the first threads: an earlier thread is given as many as a later one, or one more |
| IterStatic.OneSchedule | src/libgomp/iter.c:77-93 | any cuts from 0 to n with that property are the ones that the calls return |
| IterStatic.UnchunkedCall | src/libgomp/iter.c:63-104 | what each call returns, with -1 stored by the thread that ends the loop |
| IterStatic.ChunkedCall | src/libgomp/iter.c:105-141 | on trip j thread i gets block j * nthreads + i, and -1 is stored with the last block |
| IterStatic.Thread.Next | src/libgomp/iter.c:40-141 | gomp_iter_static_next, including a team of one |
| LoopDispatch.ExactlyOnce | src/libgomp/iter.c:259-326 | in any order of calls no iteration is handed out twice, each goes to its mapped thread, in increasing order, and in the end all have been; BinLPT blocks are maximal runs |
| LoopDispatch.Share.BinLptNext | src/libgomp/iter.c:259-292 | the two scan loops hand out the next maximal run of the thread |
| LoopDispatch.Share.SrrNext | src/libgomp/iter.c:296-326 | the scan loop hands out the next task of the thread |
| Balance.Sort | src/libgomp/loop.c:153-217 | the exchange sort orders one or more loads, and the map says where each came from |
| Balance.TracksAll | src/libgomp/loop.c:208-217 | that map is a permutation: every original position occurs |
| Balance.SrrBalance | src/libgomp/loop.c:232-286 | after the double pass pair u of h, the i-th lightest with the i-th heaviest, is on thread (2h - 1 - u) mod nthreads; the single lightest task of an odd number is on the first thread whose load, as the rounds have summed it up in 32 bits, is least |
| Balance.SrrFair | src/libgomp/loop.c:246-265 | two threads' numbers of pairs differ by at most one |
| BinLpt.CumulativeSum | src/libgomp/loop.c:300-313 | prefix sums without wrap-around |
| BinLpt.ComputeChunkSizes | src/libgomp/loop.c:323-359 | consecutive chunks of all tasks; each ends with the first task that makes it heavier than T / c, the last takes what is left, and so each weighs at most T / c + M and the last at most T / c |
| BinLpt.ComputeChunks | src/libgomp/loop.c:364-384 | the chunks' weights |
| BinLpt.BinLptBalance | src/libgomp/loop.c:403-457 | the tasks of the j-th heaviest chunk are on the first thread on which the heavier chunks weigh least, or on thread 0 if the chunk weighs nothing; the weights of the tasks on the threads are those of the heaviest-first least-loaded rule |
| BinLpt.GreedyBound | src/libgomp/loop.c:425-444 | the least-loaded rule: m times any load is at most the total and m - 1 times the largest job |
| BinLpt.GreedyTotal | src/libgomp/loop.c:425-444 | the loads add up to the jobs |
| BinLpt.BinLptBound | src/libgomp/loop.c:403-457 | end to end, m * load <= T + (m - 1) * (T / c + M) for every thread, and the loads add up to T |
| Graham.LptFactor | src/libgomp/loop.c:425-444 | Graham's 4/3 - 1/(3m) for heaviest-first least-loaded, against every assignment of the same jobs |
| Graham.BinLptFactor | src/libgomp/loop.c:403-457 | BinLPT's threads stay within that factor of the best assignment of its chunks |
| Placement.Placer.constructor | src/libgomp/team.c:346-404 | the counters p, k, s, rest and the master's sub-partition before the loop |
| Placement.Placer.Next | src/libgomp/team.c:458-512 | one round keeps the closed form of the counters and the thread's sub-partition |
| Placement.PlaceTeam | src/libgomp/team.c:714-769 | close, and spread with more threads than places, go from the master's place around the partition, n / len threads to a place and then the rest one by one; under spread the sub-partitions that are stored tile the parent's, in the order of the threads from the master's on, the larger ones at its start |
| Placement.CloseBalanced | src/libgomp/team.c:368-404 | close with more threads than places puts n / len threads on every place, and one more on the first n % len from the master's on |
| Placement.CloseDistinct | src/libgomp/team.c:458-480 | close with enough places gives every thread a place of its own |
| Placement.BlocksTile | src/libgomp/team.c:376-404 | the sub-partitions of spread are disjoint, cover the partition and differ in size by at most one |
| Placement.SpreadCovers | src/libgomp/team.c:484-512 | across the wrap, every place is in the sub-partition of exactly one thread |
| EhRanges.InsertedOk | src/gcc/java/except.c:265-348 | adding a range that needs no split keeps a tree of nested ranges, with siblings in address order |
| EhRanges.ChainIsCover | src/gcc/java/except.c:122-162 | walking outer from the innermost range lists exactly the ranges that cover pc |
| EhRanges.WalkOut | src/gcc/java/except.c:122-348 | for any list of added ranges, that walk is the list of those covering pc in the order they were added, and then the whole method |
| EhRanges.Ranges.constructor | src/gcc/java/except.c:179-189 | the tree of a new method is the whole method, with an empty cache |
| EhRanges.Ranges.AddHandler | src/gcc/java/except.c:265-348 | the two list loops perform the insertion and keep the tree |
| EhRanges.Ranges.FindHandlerInRange | src/gcc/java/except.c:117-137 | finds the innermost range around pc and remembers an interval on which it stays so |
| EhRanges.Ranges.FindHandler | src/gcc/java/except.c:139-162 | whatever was looked up before, in whatever order, the cached search gives the innermost range around pc |
| EhRanges.Ranges.SanityCheck | src/gcc/java/except.c:61-81 | every assertion of the check holds for a valid tree |
| PoolCells.InternAdds | src/gcc/java/constants.c:77-125 | interning keeps every entry, keeps the pool well formed and puts the constant where it says |
| PoolCells.IndexStable | src/gcc/java/constants.c:77-125 | however many constants are interned afterwards, a constant is found again at the index it first got, and no entry changes |
| PoolCells.IndexUnique | src/gcc/java/constants.c:77-125 | two constants never share an index |
| PoolRefs.NullClass | src/gcc/java/constants.c:136-149 | index 0 comes out exactly for a null name in an empty pool, and the next call then gives index 1 |
| PoolRefs.RefInterned | src/gcc/java/constants.c:171-216 | a field or method reference leads through its indices to its class, its name and its signature |
| PoolRefs.RefStable | src/gcc/java/constants.c:183-216 | whatever is interned afterwards, asking for the same member changes nothing and gives the same index |
| PoolRefs.MadeSound | src/gcc/java/constants.c:77-216 | every cross-reference of a pool made by these functions leads to an entry of the right kind |
| PoolBytes.CountAndStrays | src/gcc/java/constants.c:226-316 | the counted size falls short of the written size by one byte for every visited entry of another kind |
| PoolBytes.CountIsExact | src/gcc/java/constants.c:226-316 | so for every pool that interning can make, the counted size is the written size |
| PoolBytes.RoundTripIff | src/gcc/java/jcf-reader.c:338-410 | parsing the written bytes, wherever they are in the file, consumes exactly them and gives the entries back, pairs with their halves swapped, text as an offset to its length and bytes, if and only if every constant starts at least nine bytes before the end of the file; otherwise it meets the end |
| PoolBytes.RoundTrip | src/gcc/java/jcf-reader.c:338-410 | six bytes after the pool are always enough |
| PoolVerify.VerifyIff | src/gcc/java/jcf-io.c:489-556 | after writing and reading, a pool made by these functions passes the check exactly if all second indices are below 32768 or words have 32 bits |
| PoolVerify.SmallPoolPasses | src/gcc/java/jcf-io.c:489-556 | with at most 32768 entries it always passes |
| PoolVerify.ReadPair | src/gcc/java/jcf-reader.c:366-371 | the two halves of a word read as the first and the second index, and a second index of 32768 or more reads as negative with 64-bit words |
| PoolVerify.HighSecond | src/gcc/java/jcf-io.c:489-556 | the interning functions make a pool, of 32768 numbers and a field, that fails the check wherever it is written and read with 64-bit words |
| PoolVerify.EndOfFile | src/gcc/java/jcf-reader.c:338-410 | and one, of a single number, whose reading meets the end when nothing follows it in the file |
| PoolVerify.RefSurvives | src/gcc/java/jcf-reader.c:338-410 | a reference that was interned, written and read back is at the same index and reads as the same class, name and signature |
| PoolVerify.FileRoundTrip | src/gcc/java/jcf-io.c:489-556 | counting, writing, reading and checking together, for every pool made by these functions |
| ConstantPool.CPool.SetConstantEntry | src/gcc/java/constants.c:43-74 | stores one entry, allocating or growing the arrays, and keeps all others |
| ConstantPool.CPool.FindConstant1 | src/gcc/java/constants.c:77-91 | the downward search and the append are interning |
| ConstantPool.CPool.FindConstant2 | src/gcc/java/constants.c:93-110 | the same for two words |
| ConstantPool.CPool.FindTreeConstant | src/gcc/java/constants.c:112-125 | the same for text |
| ConstantPool.CPool.FindClassOrStringConstant | src/gcc/java/constants.c:136-149 | the same for a class or a string, null names included |
| ConstantPool.CPool.FindClassConstant | src/gcc/java/constants.c:151-156 | a class has tag 7 |
| ConstantPool.CPool.FindStringConstant | src/gcc/java/constants.c:160-166 | a string has tag 8 |
| ConstantPool.CPool.FindNameAndTypeConstant | src/gcc/java/constants.c:168-178 | the same for a name and type |
| ConstantPool.CPool.FindRefIndex | src/gcc/java/constants.c:180-216 | the same for a field or method reference |
| ConstantPool.CPool.FindFieldrefIndex | src/gcc/java/constants.c:183-191 | a field reference has tag 9 |
| ConstantPool.CPool.FindMethodrefIndex | src/gcc/java/constants.c:202-216 | a method reference has tag 10, or 11 in an interface |
| ConstantPool.CPool.CountConstantPoolBytes | src/gcc/java/constants.c:226-265 | the loop computes the counted size |
| ConstantPool.CPool.WriteConstantPool | src/gcc/java/constants.c:271-316 | the buffer holds exactly the pool's bytes, and the final assertion holds exactly if the length was right |
| ConstantPool.Jcf.ParseConstantPool | src/gcc/java/jcf-reader.c:338-410 | the parser fills tags and words as specified, or stops at a bad tag, at the end of the file or past its arrays |
| ConstantPool.Jcf.VerifyConstantPool | src/gcc/java/jcf-io.c:489-556 | for any tags and words, the first entry that is looked at and is not a known constant with indices in the pool to entries of the right kind, or 0 if there is none |
| PoolFormat.VerifyFinds | src/gcc/java/jcf-io.c:489-556 | the same, tag by tag as in section 4.4 of the Java Virtual Machine Specification; only the second word of a long or double is not looked at |
| PoolFormat.StepRead | src/gcc/java/jcf-reader.c:346-408 | what is read for one constant, by tag number: the indices of a word in the order of the file, big-endian numbers, the place of a text, and the place of the next constant |
| PoolFormat.CellWritten | src/gcc/java/constants.c:284-312 | what is written for one constant, by tag number: the tag and big-endian numbers, or the length and the text |
| PoolFormat.PoolWritten | src/gcc/java/constants.c:271-316 | the whole pool is its big-endian count and then these constants one after the other |
| PoolFormat.RefBytes | src/gcc/java/constants.c:168-216 | a reference that was interned is written as its tag, the index of its class and the index of its name and type, and so on to the three texts |

## Left out

Tasks:

- Taskgroups, cancellation, untied flags, final and mergeable clauses, and the priority of running tasks inside `taskwait`.
- Tasks whose parent has ended: a parent is taken to stay alive until its children have finished.
- TaskScheduler.NeverStuck: a thread at the barrier can always look at the queue, so the pending bit, `task_running_count` and the number of threads woken (`do_wake`) are not modelled.
- The per-parent `depend_hash` is a finite map; that the hash table refines one is proved in `HashTable`.
- The `dependers` vectors, chains and hash of a task are sequences and a map; only the rings are links. Barrier generations are counted in epochs; freed tasks stay in the state as finished ids.
- A step is a critical section under `task_lock` (or a wake-up), so memory fences, weak memory and the locks themselves are left out here and in the other concurrent models.

Hash table:

- HashTable.Htab.constructor: sizes up to 2147483647, for the next row of the table is the one in which probing can leave the probe path (`HashTable.LastRowWraps`).
- HashTable.Htab.Expand: the size it asks for is at most 2147483647, for the same reason.
- `higher_prime_index` with n above the last prime reads past the table; the model gives it an outcome of its own.
- HashTable.Htab.Insert: an expansion asks for at most 2147483647 slots, for the same reason; the slot returned by `htab_find_slot` and the caller's store are one operation, because a reused tombstone is EMPTY in between.
- Pointers are 64-bit values; `htab_alloc` and `htab_free` are the language's allocation.

Ordered loops:

- The static protocol is modelled for teams of two or more threads; with one thread its routines return at once.
- OrderedBlocks.DynamicMatches: loops whose blocks are right, as `IterDynamic.TilingIff` and `IterDynamic.ProductIff` say.
- OrderedBlocks.GuidedMatches: the loops of `IterGuided.SameTiling`.

Work shares:

- The mutex, the ordered fields and the task map of a share, and the walk over `work_shares_to_free` when the team ends.
- Cancelled constructs (`gomp_work_share_end_cancel`).

Loop schedulers:

- `iter_ull.c` and `loop_ull.c`, the same algorithms modulo 2^64.
- Loops set up before the team starts (`gomp_parallel_loop_start`): there `gomp_loop_init` reads the enclosing team's thread count, so the no-wrap claim is for loops set up inside the team.
- IterDynamic.Share.NextSwap: the difference is a `long`, as `IterDynamic.TilingIff` demands; the other threads' steps between load and swap are any number of allocations, as a method that moves next towards the end.
- IterGuided.Share.NextSwap: the same loops as for `IterGuided.SameTiling`, and the same interference.
- IterGuided.SameTiling: for steps other than 1 and -1 the condition is sufficient; some loops with a larger difference are still handed out right.
- Overflow of a signed `long` is taken to wrap around, which the C standard leaves open.
- IterDynamic.FromInit: a product of chunk size and step that leaves the longs is admitted exactly where `IterDynamic.ProductIff` says that the first block is right.
- IterStaticReturned.RightIff: the count is right. One that is too small is never right (`IterStaticReturned.TooFew`); one that is too large can be right by accident.
- IterStatic.ThreadGets: no surplus start wraps below n; `IterStaticExact.ExactlyOnceIff` says that this is exactly when the schedule is right.
- IterStatic.ChunkedCall: the same.
- `quicksort`, which `sort` never calls, and the registration of loops.
- Balance.Sort: which of two equal loads comes first is not stated (the exchange sort is not stable), nor what happens to an empty array, for which the unsigned `n - 1` wraps around and the loop runs past the array.
- Balance.SrrBalance: the `load` array adds `tasks` after the in-place sort, at the original places; the contract speaks of these sums, not of the weights of the tasks on a thread.
- BinLpt.BinLptBalance: needs 1 <= nchunks <= ntasks < 2^32 and a total below 2^32, as the size of `sortmap` and the `unsigned` sums demand.
- LoopDispatch.ExactlyOnce: BinLPT and SRR loops have a step of 1 and as many iterations as tasks.

Thread placement:

- `proc_bind(false)` and `proc_bind(master)`, affinity permutations, idle threads, thread creation and the pool. The loop over idle threads and the loop over new threads run the same counters and are one loop here.

Exception ranges:

- EhRanges.Ranges.AddHandler: `split_range` and overlapping ranges, and ranges added after a search.
- Handlers, statements and labels of a range; bytecode addresses are below 0xFFFFFF, the empty cache's start.
- Sibling links are lists of children: the next sibling is the next element.

Constant pools:

- PoolRefs.RefInterned: at most 65530 entries before the reference is interned, so that its indices have two bytes, as section 4.1 of the Java Virtual Machine Specification demands.
- PoolRefs.MadeSound: the same before everything that is interned.
- PoolBytes.RoundTripIff: text is shorter than 65536 bytes and the count below 65536, as sections 4.4.7 and 4.1 of the Java Virtual Machine Specification demand.
- Reading from a stream: the file is in memory, and filling the buffer beyond its end is the error outcome.
- A count of 0, or a constant of two words in the last place, makes the parser store past its arrays; both are one outcome of the model.
- A shift of an `int` into its sign bit is taken as two's complement.
- Resolved entries, and the trees from which names and signatures are built: the model starts from their bytes.
- Allocation failure, garbage collection and printing.
