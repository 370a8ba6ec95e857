# The hard core of mekong-9, modelled in Dafny

mekong-9 is a Rust workspace of low-level building blocks. This project models
three of them and proves what each is for.

**The word-sized mutex and its parking queue.** `RawMutex` keeps a lock bit, a
queue-lock bit, a timeout bit and the head of an intrusive list of sleeping
threads in one `u64`. `RawMutex.dfy` is a transition system over any number of
threads: every atomic operation on the word is one step, a weak
compare-exchange may fail on the expected value, a holder may choose `unlock`
or `unlock_fair`, and whether the fair timeout has fired is free. Reads and
writes of node fields are steps too, or belong to the step of the queue-lock
session that protects them. A null dereference is not ruled out by a
precondition: it leads to the program point `Fault`, which is proved
unreachable. `MutexSpec.dfy` is the lock that users think of: an owner, a
first-in first-out queue, hand-off to the oldest waiter only. `NodeList.dfy`
says when the pointers represent a queue, `MutexInvariant.dfy` and
`MutexSteps.dfy` hold the inductive invariant and its preservation, and
`MutexTheorems.dfy` states what follows for every run, in terms of the concrete
state and the run only, and `MutexProgress.dfy` that every reachable state can
still be brought back to an idle mutex. `QueueNodes.dfy` is the same list on
mutable objects: the loop of `link_prev_nodes!`, the removal and the preparation of a node, each
proved to make exactly the pointer updates of the transition system.
`PackedWord.dfy` and `MutexBits.dfy` take the word down to its 64 bits.

**The thread parker.** `ParkerSpec.dfy` is a parker with one token.
`FutexParker.dfy` and `SemaphoreParker.dfy` are the two implementations, as
transition systems with one parking thread and any number of unparkers; both
refine it, and `MutexParking.dfy` shows that the mutex uses it as it allows.
`WaitGroup.dfy` is the other client: check, publish, check again, sleep; it is
shown to use the parker as it allows, too. `WaitGroupList.dfy` follows the
`next` pointers of its nodes, `CutList.dfy` is the walk of `unpark_all` on
mutable nodes, and `WaitGroupProgress.dfy` bounds what can happen after the last
`done`.

**The hash functions.** `Words.dfy` has the machine-word operations and which of
them lose no information; in particular multiplication by any odd 64-bit word,
by five Newton steps. `City.dfy`, `CityHash32.dfy` and `CityHash64.dfy` are
CityHash, `LowLevel.dfy` the portable low-level hash, `Streaming.dfy` the
dispatch on length and the mutual recursion over 1024-byte chunks. The block
loops are methods proved equal to folds over blocks. Their loads go through
`Reads.dfy`, which keeps account of the bytes touched, so that each method also
states that it reads the whole slice and nothing else. `KnownValues.dfy` evaluates
every case of the hashes at an input of the repository's own tables, or, where the
tables have none, at one worked out from the constants.

Points at which the code and its comments differ, or which the code leaves
implicit; the model follows the code:

- On 64 bits, a comment says that node addresses are divisible by 8
  (`mekong9-sync/src/internal/parking/auxiliary.rs:60-61`), while the assertion
  in `ThreadData::new` (line 106) only asks for 4. `PackedWord.HeadFits` shows
  that 8 is exactly what the packing needs; nodes contain pointers, so on 64
  bits they have it.
- After taking the queue bit, `unlock_slow` and `unlock_slow_fair` go on with
  the local word from before, without the queue bit. Where they come to a
  compare-exchange on that word it always fails (`MutexTheorems.StaleWordFails`)
  and makes them scan once more. The model keeps this.
- Before waking a removed thread, comments say that it is sleeping right now
  (lines 362-365 and 448-451). It may still be between publishing its node and
  calling `park` (`MutexParking.UnparkBeforePark`); `MutexParking.UsesParker`
  shows that the parker's token covers that case.
- `hash_block_on32bit` adds the length to the state with `+`. The model lets it
  wrap, as a build without overflow checks does.

## Model

| member | source | states |
|---|---|---|
| MutexTheorems.MutualExclusion | mekong9-sync/src/internal/parking/auxiliary.rs:187-270 | after every run the lock bit is set if and only if some thread owns the lock, and two owners are the same thread; a thread owns from acquiring, or from being removed for a hand-off, until it releases |
| MutexTheorems.NoLostWakeup | mekong9-sync/src/internal/parking/auxiliary.rs:206-371 | whenever the lock is free and the queue is not empty, some thread that will attend to a waiter is able to take a step |
| MutexTheorems.QuietIsIdle | mekong9-sync/src/internal/parking/auxiliary.rs:206-458 | if every thread is outside or asleep, then none is asleep and the word is `IDLE` |
| MutexProgress.CanAlwaysFinish | mekong9-sync/src/internal/parking/auxiliary.rs:187-458 | from every reachable state some continuation leads to the word `IDLE` with every thread outside; in particular no queue owner is bound to rescan for ever |
| MutexProgress.SomebodyAdvances | mekong9-sync/src/internal/parking/auxiliary.rs:187-458 | in every state with a thread that is neither outside nor asleep, some thread has a move that lowers the rank |
| MutexProgress.CommitAdvances | mekong9-sync/src/internal/parking/auxiliary.rs:314-354 | a queue owner that has finished a scan has a move that lowers the rank, whether its local word is stale or not |
| MutexTheorems.RefinesLock | mekong9-sync/src/internal/parking/auxiliary.rs:170-459 | the events of every run are a run of the abstract first-in first-out lock |
| MutexTheorems.RefinesQueue | mekong9-sync/src/internal/parking/auxiliary.rs:86-168 | for some extent of processing, head, `next`, `prev` and `queue_tail` represent the abstract queue, and the threads pushed are those taken off, in order, followed by those that wait |
| MutexTheorems.ScanFollowsQueue | mekong9-sync/src/internal/parking/auxiliary.rs:154-168 | at every point of a scan the current node is a waiter; a `queue_tail` found set is the true tail, and otherwise the `next` that is followed is the next older waiter |
| MutexTheorems.TailIsTrue | mekong9-sync/src/internal/parking/auxiliary.rs:305-331 | after a scan the local tail is the oldest waiter; its `prev` is the second oldest, or null only if it is the local head |
| MutexTheorems.StaleWordFails | mekong9-sync/src/internal/parking/auxiliary.rs:284-342 | a queue owner whose local word is from before it took the queue bit has no successful compare-exchange |
| MutexTheorems.OneQueueOwner | mekong9-sync/src/internal/parking/auxiliary.rs:284-360 | the queue bit is set if and only if some thread is between taking and releasing it, and only one is |
| MutexTheorems.NoFault | mekong9-sync/src/internal/parking/auxiliary.rs:154-168 | no null pointer is followed and the empty-queue branch of `unlock_slow_fair` is never entered |
| MutexTheorems.TouchesOnlyEnlisted | mekong9-sync/src/internal/parking/auxiliary.rs:330-369 | each node that a queue owner or a waker touches belongs to a thread that has published it, has not returned from `park!` and has not been notified |
| MutexTheorems.FairHandOff | mekong9-sync/src/internal/parking/auxiliary.rs:214-232 | from the timeout bit on a non-empty queue to the hand-off nobody acquires or releases, and the hand-off makes the oldest waiter the owner and clears the timeout bit |
| MutexTheorems.FiredHandsOver | mekong9-sync/src/internal/parking/auxiliary.rs:217-223 | an `unlock_fair` that fires on a non-empty queue goes on to hand over |
| MutexTheorems.FairUnlockHandsOver | mekong9-sync/src/internal/parking/auxiliary.rs:214-232 | over any continuation of a run from that step until the hand-off, nobody acquires or releases, and the thread stays at it |
| MutexTheorems.NobodyOvertakes | mekong9-sync/src/internal/parking/auxiliary.rs:214-232 | over any continuation of a run, as long as the hand-over has not happened, nobody has acquired or released and it is still under way |
| MutexTheorems.HandOverStep | mekong9-sync/src/internal/parking/auxiliary.rs:374-458 | a step of the thread that hands over either hands over and clears the timeout bit or goes on handing over |
| MutexTheorems.BystanderStep | mekong9-sync/src/internal/parking/auxiliary.rs:235-251 | meanwhile no other thread acquires, releases or hands over |
| MutexTheorems.TimeoutOnlyInsideUnlockFair | mekong9-sync/src/internal/parking/auxiliary.rs:214-232 | the timeout bit is set exactly while the owner is inside `unlock_fair`, hence only on a locked word |
| MutexTheorems.LastNode | mekong9-sync/src/internal/parking/auxiliary.rs:332-354 | taking the last node off commits only if nobody was pushed meanwhile; it leaves `IDLE` in `unlock_slow` and the lock bit alone in `unlock_slow_fair` |
| MutexTheorems.OneWake | mekong9-sync/src/internal/parking/auxiliary.rs:136-149 | per thread, pushes, removals, notifications and resumptions follow each other one for one, up to the one under way |
| MutexTheorems.LinkingIsAmortised | mekong9-sync/src/internal/parking/auxiliary.rs:94-97 | over every run, the iterations of `link_prev_nodes!` that step over a node are at most as many as the successful pushes |
| MutexTheorems.Trace | mekong9-sync/src/internal/parking/auxiliary.rs:170-459 | every run has a history that satisfies the invariant, follows the abstract lock, and counts the run's pushes and links |
| MutexTheorems.CanRun | mekong9-sync/src/internal/parking/auxiliary.rs:235-458 | every thread that is not asleep has a next step |
| MutexTheorems.CallsComeBack | mekong9-sync/src/internal/parking/auxiliary.rs:187-270 | a `lock` past its fast path stays inside or comes back holding and owning the lock; an unlock stays inside or comes back without it |
| MutexTheorems.TryLockDoesNotWait | mekong9-sync/src/internal/parking/auxiliary.rs:187-203 | `try_lock` and the fast path succeed only on the idle word; a failed `try_lock` changes nothing and is outside |
| MutexTheorems.UnlockIsShort | mekong9-sync/src/internal/parking/auxiliary.rs:206-232 | an unlock that is not fair is a single step exactly if there is no waiter or the queue bit is taken |
| MutexTheorems.WakesOnlyWhenFree | mekong9-sync/src/internal/parking/auxiliary.rs:311-342 | `unlock_slow` removes a waiter only when its local word is unlocked |
| MutexTheorems.LockSlowChooses | mekong9-sync/src/internal/parking/auxiliary.rs:238-260 | `lock_slow` tries for the lock exactly when its local word is unlocked, spins only without a queue, and otherwise parks |
| MutexTheorems.CompareExchange | mekong9-sync/src/internal/parking/auxiliary.rs:241-248 | every compare-exchange may fail, and a successful one finds the expected word |
| MutexSteps.StepKeeps | mekong9-sync/src/internal/parking/auxiliary.rs:187-458 | every step of every thread keeps the invariant and is allowed by the abstract lock |
| MutexSteps.PushKeeps | mekong9-sync/src/internal/parking/auxiliary.rs:126-144 | publishing a node keeps the invariant even while a queue owner works from an older word |
| MutexSteps.LinkKeeps | mekong9-sync/src/internal/parking/auxiliary.rs:161-165 | stepping over a node finds a non-null `next` and pays with one push |
| MutexSteps.TrimKeeps | mekong9-sync/src/internal/parking/auxiliary.rs:355-360 | the removal that only rewrites the local head's `queue_tail` takes the oldest waiter off |
| MutexSteps.CutKeeps | mekong9-sync/src/internal/parking/auxiliary.rs:332-342 | the compare-exchange that empties the queue takes its only waiter off |
| MutexSteps.WakeKeeps | mekong9-sync/src/internal/parking/auxiliary.rs:362-369 | unparking a removed node keeps the invariant: its thread is asleep and nobody else can wake it |
| MutexSpec.FirstInFirstOut | mekong9-sync/src/internal/parking/auxiliary.rs:86-101 | the abstract queue is first in, first out over every sequence of events |
| MutexSpec.OneWakePerPush | mekong9-sync/src/internal/parking/auxiliary.rs:362-369 | in the abstract lock, a thread's enqueueings, removals, notifications and resumptions alternate |
| MutexSpec.FollowsUnique | mekong9-sync/src/internal/parking/auxiliary.rs:170-173 | the abstract state is determined by the events |
| NodeList.RepresentsPush | mekong9-sync/src/internal/parking/auxiliary.rs:126-135 | a prepared node appended to a represented queue gives a represented queue, whatever has been linked so far |
| NodeList.RepresentsLink | mekong9-sync/src/internal/parking/auxiliary.rs:161-165 | from a node above the mark, `next` is the next older node and setting its `prev` extends the linked part |
| NodeList.RepresentsLinked | mekong9-sync/src/internal/parking/auxiliary.rs:305-309 | when the scan arrives, the first non-null `queue_tail` is the oldest node, and marking the local head makes everything below it processed |
| NodeList.RepresentsTrim | mekong9-sync/src/internal/parking/auxiliary.rs:355-358 | the tail's `prev` is the second oldest node, and moving `queue_tail` there represents the queue without its oldest node |
| QueueNodes.LinkPrevNodes | mekong9-sync/src/internal/parking/auxiliary.rs:154-168 | on mutable nodes, the loop returns the oldest node, sets exactly the `prev` pointers of the model, and takes one iteration for each node above the mark |
| QueueNodes.LinkAllRepresents | mekong9-sync/src/internal/parking/auxiliary.rs:296-303 | after the loop the list is linked from the local head down to the oldest node |
| QueueNodes.TakeOldest | mekong9-sync/src/internal/parking/auxiliary.rs:296-358 | on mutable nodes, the shared part of both slow unlocks finds the oldest node, makes exactly the pointer updates of the model, and, if it is not the only node, leaves a list that represents the queue without it |
| QueueNodes.PrepareNode | mekong9-sync/src/internal/parking/auxiliary.rs:120-135 | on mutable nodes, `park!` sets the cells to the node that the transition system publishes |
| PackedWord.HeadFits | mekong9-sync/src/internal/parking/auxiliary.rs:57-79 | on 64 bits, storing a head keeps head and flags apart if and only if the address is divisible by 8 |
| PackedWord.HeadFits32 | mekong9-sync/src/internal/parking/auxiliary.rs:51-71 | on 32 bits, storing any address keeps head and flags apart, and storing the head that is there changes nothing |
| PackedWord.ShiftedHead | mekong9-sync/src/internal/parking/auxiliary.rs:51-71 | the 32-bit setter and getter are the 64-bit ones on the shifted pointer, which is 8-aligned |
| PackedWord.ShiftInjective | mekong9-sync/src/internal/parking/auxiliary.rs:65-71 | on 32-bit pointers the shift is injective and keeps non-null pointers non-null |
| PackedWord.UnlockBorrowsIffUnlocked | mekong9-sync/src/internal/parking/auxiliary.rs:207 | subtracting the lock bit clears that bit alone if and only if it was set |
| PackedWord.PacksUnique | mekong9-sync/src/internal/parking/auxiliary.rs:45-80 | words with equal fields are equal |
| PackedWord.LockFlag | mekong9-sync/src/internal/parking/auxiliary.rs:33 | bit 0 is the lock bit alone |
| PackedWord.QueueLockFlag | mekong9-sync/src/internal/parking/auxiliary.rs:34 | bit 1 is the queue bit alone |
| PackedWord.TimeoutFlag | mekong9-sync/src/internal/parking/auxiliary.rs:35 | bit 2 is the timeout bit alone |
| MutexBits.SameBitsSameFields | mekong9-sync/src/internal/parking/auxiliary.rs:136-144 | comparing packed words, as a compare-exchange does, compares their fields |
| MutexBits.PackedExists | mekong9-sync/src/internal/parking/auxiliary.rs:45-80 | every reachable state has a packed word, for every layout of the nodes |
| MutexBits.ShiftedLayout | mekong9-sync/src/internal/parking/auxiliary.rs:65-71 | distinct non-null 32-bit pointers, shifted, are a layout, so every row below also holds on 32 bits with the shifted addresses |
| MutexBits.HeadBits32 | mekong9-sync/src/internal/parking/auxiliary.rs:51-55 | the 32-bit `queue_head` reads back the head node's pointer, and null exactly for an empty queue |
| MutexBits.UnlockBits | mekong9-sync/src/internal/parking/auxiliary.rs:207 | in every reachable state the subtraction of `unlock` clears the lock bit and leaves head and flags alone |
| MutexBits.FireBits | mekong9-sync/src/internal/parking/auxiliary.rs:219 | the `fetch_or` of `unlock_fair` sets the timeout bit alone |
| MutexBits.UnlockFairBits | mekong9-sync/src/internal/parking/auxiliary.rs:227 | without a timeout, the `fetch_and` of `unlock_fair` clears the lock bit alone |
| MutexBits.ClearTimeoutBits | mekong9-sync/src/internal/parking/auxiliary.rs:224-227 | after a timeout on an empty queue it clears lock bit and timeout bit |
| MutexBits.TrimBits | mekong9-sync/src/internal/parking/auxiliary.rs:359 | the `fetch_and` after a removal in `unlock_slow` clears the queue bit alone |
| MutexBits.FairTrimBits | mekong9-sync/src/internal/parking/auxiliary.rs:444-445 | the one in `unlock_slow_fair` clears queue bit and timeout bit |
| MutexBits.TryLockBits | mekong9-sync/src/internal/parking/auxiliary.rs:188-198 | `try_lock` and the fast path of `lock` succeed on the zero word and leave the lock bit alone |
| MutexBits.GrabBits | mekong9-sync/src/internal/parking/auxiliary.rs:241-244 | `lock_slow` sets the lock bit and keeps the queue |
| MutexBits.PushBits | mekong9-sync/src/internal/parking/auxiliary.rs:136-139 | on 64 bits, `park!` replaces the head and keeps the flags |
| MutexBits.PushBits32 | mekong9-sync/src/internal/parking/auxiliary.rs:65-71 | on 32 bits, `park!` replaces the head by the shifted pointer and keeps the flags |
| MutexBits.TakeQueueBits | mekong9-sync/src/internal/parking/auxiliary.rs:284-287 | an unlocker sets the queue bit and keeps the rest |
| MutexBits.YieldBits | mekong9-sync/src/internal/parking/auxiliary.rs:314-318 | a queue owner on a locked word clears the queue bit and keeps the rest |
| MutexBits.CutLastBits | mekong9-sync/src/internal/parking/auxiliary.rs:334-337 | emptying the queue keeps lock and timeout bit in `unlock_slow`, the lock bit alone in `unlock_slow_fair` |
| ParkerSpec.TokensConserved | mekong9-parker/src/futex.rs:69-144 | tokens granted are those consumed by successful returns plus the one that is there |
| ParkerSpec.UnparkNotLost | mekong9-parker/src/futex.rs:91-125 | the first return after an `unpark` is a successful one |
| FutexParker.StepRefines | mekong9-parker/src/futex.rs:72-144 | every step of `park`, `park_until`, `unpark` and the futex keeps the invariant and is a step of the one-token parker |
| FutexParker.Refines | mekong9-parker/src/futex.rs:72-144 | every run, with any spurious wake-ups and timeouts, is a run of the one-token parker |
| FutexParker.NoLostWakeup | mekong9-parker/src/futex.rs:97-144 | the word is always one of its three constants, the `unreachable!` arm is not reached, and a thread asleep on a token has an unparker about to wake it |
| FutexParker.ParkReturnsOnlyWithToken | mekong9-parker/src/futex.rs:72-112 | a return without a token is one of `park_until`; `park` has no such way out |
| FutexParker.TokenIsTaken | mekong9-parker/src/futex.rs:72-125 | an owner with a token is at most two steps from returning with it |
| FutexParker.TimeoutReturns | mekong9-parker/src/futex.rs:97-125 | `park_until` can always return within three steps, successfully exactly if there is a token |
| FutexParker.WakesAreAnnounced | mekong9-parker/src/futex.rs:134-144 | over every run, `wake_one` is called at most as often as the owner has announced a wait |
| SemaphoreParker.StepRefines | mekong9-parker/src/semaphore.rs:66-133 | every step of `park` and `unpark` keeps the invariant and is a step of the one-token parker |
| SemaphoreParker.Refines | mekong9-parker/src/semaphore.rs:66-133 | every run is a run of the one-token parker |
| SemaphoreParker.CountIsReset | mekong9-parker/src/semaphore.rs:66-90 | count and signals to come are at most one, and zero unless the owner waits; a waiting owner with a token can be woken |
| SemaphoreParker.TokenIsTaken | mekong9-parker/src/semaphore.rs:66-90 | an owner with a token is at most three steps from returning with it |
| SemaphoreParker.NoTokenNoReturn | mekong9-parker/src/semaphore.rs:66-90 | `park` returns only with a token |
| SemaphoreParker.PendingUpdate | mekong9-parker/src/semaphore.rs:126-133 | how one unparker changes the number of signals to come |
| MutexParking.UsesParker | mekong9-sync/src/internal/parking/auxiliary.rs:146-149 | every step of the mutex is one that each node's parker allows; publishing and entering `park` are separate steps, and an `unpark` always finds no token and its thread in `park` or between the two |
| MutexParking.UnparkBeforePark | mekong9-sync/src/internal/parking/auxiliary.rs:362-366 | a run of two threads in which the removed thread has published its node and not called `park` when it is about to be unparked; its later `park` returns |
| WaitGroup.StepKeeps | mekong9-sync/src/internal/parking/auxiliary.rs:498-606 | every step of waiters and of the finishing worker keeps the wait group's invariant, with `abort_self` as one step |
| WaitGroup.NoEarlyReturn | mekong9-sync/src/wait_group.rs:100-128 | a waiter has returned only if the initial size plus what the run has added equals the number of `done` in the run |
| WaitGroup.CounterCounts | mekong9-sync/src/wait_group.rs:100-117 | after every run the counter is the initial size plus what the run has added less the number of `done` in it |
| WaitGroup.SleepersAreCut | mekong9-sync/src/internal/parking/auxiliary.rs:548-575 | whoever sleeps, or is on its way to `park` after its second check, when the final `done` cuts the list is in the list that it cuts |
| WaitGroup.SleeperIsAttended | mekong9-sync/src/internal/parking/auxiliary.rs:577-606 | once the counter is zero, a sleeper is listed and the finishing worker is able to go on |
| WaitGroup.UnparkedOnce | mekong9-sync/src/internal/parking/auxiliary.rs:584-590 | a waiter is unparked at most once, and exactly once if it slept and has gone on |
| WaitGroup.WokenReturns | mekong9-sync/src/internal/parking/auxiliary.rs:498-546 | in every run, a waiter that slept and was woken is back at its check or has returned, and the check returns |
| WaitGroup.UsesParker | mekong9-sync/src/internal/parking/auxiliary.rs:539-543 | every step of the wait group is one that each node's parker allows; `unpark_all` finds no token, and a waiter enters `park` with a token or with its node still listed |
| CutList.UnparkAll | mekong9-sync/src/internal/parking/auxiliary.rs:577-590 | on mutable nodes, the walk along `next` unparks every node of the cut list once, newest first, touches none after unparking it, and leaves every other parker as it was |
| CutList.OnceEach | mekong9-sync/src/internal/parking/auxiliary.rs:584-590 | that order holds each thread of the list exactly once, and no other |
| CutList.CutIsChained | mekong9-sync/src/internal/parking/auxiliary.rs:577-590 | in every run, what the finishing worker has cut is a list of nodes that `CutList.UnparkAll` can walk from its newest node |
| CutList.PublishedIsChained | mekong9-sync/src/internal/parking/auxiliary.rs:515-534 | publishing a node whose `next` is the old head chains one more node |
| WaitGroup.AllReturn | mekong9-sync/src/wait_group.rs:111-128 | when the counter is zero and nobody can go on, every waiter has returned |
| WaitGroupProgress.EveryMoveCounts | mekong9-sync/src/wait_group.rs:111-128 | after the last `done`, every move of every thread lowers a rank, except a compare-exchange that fails on the expected word, which changes nothing |
| WaitGroupProgress.MovesAreBounded | mekong9-sync/src/wait_group.rs:111-128 | after the last `done`, every continuation has at most as many moves as the rank says, not counting those failures |
| WaitGroupProgress.RestIsReturn | mekong9-sync/src/wait_group.rs:111-128 | when only new calls of `wait` and such failures are possible, every waiter has returned |
| WaitGroupProgress.WaiterSleepsAndReturns | mekong9-sync/src/wait_group.rs:100-128 | a run in which a waiter sleeps while work is left, is unparked once by the last `done`, and returns |
| WaitGroupList.PointersAreLists | mekong9-sync/src/internal/parking/auxiliary.rs:508-534 | in every run the `next` pointers of the nodes lead through the list, and through what is cut and not yet unparked, from newest to oldest |
| WaitGroupList.WalkFollowsNext | mekong9-sync/src/internal/parking/auxiliary.rs:584-590 | the node that `unpark_all` visits next is the one `next` points to, and the walk ends where `next` is null |
| WaitGroupList.LinkedRemove | mekong9-sync/src/internal/parking/auxiliary.rs:612-650 | taking a node out of a linked list, its newer neighbour taking over its `next`, leaves the others linked |
| Words.OddInverse | mekong9-hash/src/internal/city.rs:121-128 | every odd 64-bit multiplier has an inverse |
| Words.OddMulInjective | mekong9-hash/src/internal/city.rs:121-128 | wrapping multiplication by an odd 64-bit word is injective |
| Words.ShiftXor13Inverse | mekong9-hash/src/internal/city.rs:106-113 | the xor-shift by 13 on 32 bits is undone by its inverse, and the other way round |
| Words.Load32Injective | mekong9-hash/src/internal/unaligned_access.rs:28-30 | two 32-bit loads agree if and only if the bytes do |
| Words.Load64Injective | mekong9-hash/src/internal/unaligned_access.rs:33-35 | two 64-bit loads agree if and only if the bytes do |
| Words.Len32Counts | mekong9-hash/src/internal/city.rs:306 | the conversion of a length to 32 bits counts and wraps |
| Words.Len64Counts | mekong9-hash/src/internal/city.rs:397-402 | the conversion of a length to 64 bits counts and wraps |
| City.MurInjective | mekong9-hash/src/internal/city.rs:95-103 | on equal results of `mur`, the first arguments agree if and only if the second ones do |
| City.FmixBijective | mekong9-hash/src/internal/city.rs:106-113 | `fmix` is a bijection, with its inverse |
| City.Hash64Len16Injective | mekong9-hash/src/internal/city.rs:121-128 | for every odd multiplier `hash64_len16` is injective in its first argument |
| CityHash32.ComputeLen0To4 | mekong9-hash/src/internal/city.rs:130-140 | the byte loop computes the accumulators defined by recursion from the end of the input, and reads exactly all of it |
| CityHash32.OneByteMatters | mekong9-hash/src/internal/city.rs:130-139 | the first accumulator differs on inputs that differ in exactly one byte |
| CityHash32.ComputeLen5To12 | mekong9-hash/src/internal/city.rs:176-186 | computes its case from the words loaded, and reads exactly the whole input |
| CityHash32.ComputeLen13To24 | mekong9-hash/src/internal/city.rs:209-219 | computes its case from the words loaded, and reads exactly the whole input |
| CityHash32.Tail | mekong9-hash/src/internal/city.rs:306-332 | the start state depends on the length and the last 20 bytes, which are exactly the bytes loaded |
| CityHash32.Block | mekong9-hash/src/internal/city.rs:337-361 | the steps of one iteration, permutation included, are the round function of that block and load exactly its 20 bytes |
| CityHash32.ComputeLong | mekong9-hash/src/internal/city.rs:306-379 | for every length above 24 the loop equals the fold over 20-byte blocks, stays inside the slice and reads exactly all of it |
| CityHash32.ComputeHash32 | mekong9-hash/src/internal/city.rs:291-379 | `hash32` reads exactly the whole input, whatever its length |
| CityHash32.RoundInjective | mekong9-hash/src/internal/city.rs:337-361 | for every block, a round is injective in the lanes |
| CityHash32.RoundsInjective | mekong9-hash/src/internal/city.rs:334-367 | for all blocks, the loop takes different lanes to different lanes |
| CityHash32.Offsets | mekong9-hash/src/internal/city.rs:176-219 | the loads of the cases of 5 to 24 bytes stay inside the input and cover every byte |
| CityHash32.ShortIsAbsorb | mekong9-hash/src/internal/city.rs:176-219 | for 5 to 24 bytes `hash32` is `fmix` of the loaded words absorbed one after the other |
| CityHash32.AbsorbInjective | mekong9-hash/src/internal/city.rs:218 | absorbing two word sequences that differ in one place, by a mixer injective in each argument, gives different results |
| CityHash32.OneLoadNeverCollides | mekong9-hash/src/internal/city.rs:176-219 | inputs of equal length, 5 to 24 bytes, that differ in exactly one loaded word have different `hash32` values |
| CityHash32.OneAlignedWordNeverCollides | mekong9-hash/src/internal/city.rs:176-219 | inputs of 12 or 24 bytes that differ inside one aligned four-byte word have different `hash32` values |
| CityHash64.FetchWeak | mekong9-hash/src/internal/city.rs:276-289 | the weak hash of 32 bytes loads exactly these bytes |
| CityHash64.Ends | mekong9-hash/src/internal/city.rs:395-407 | the start state depends on the length, the first word and the last 64 bytes, which are exactly the bytes loaded |
| CityHash64.Block | mekong9-hash/src/internal/city.rs:411-436 | the steps of one iteration, swap included, are the round function of that block and load exactly its 64 bytes |
| CityHash64.ComputeLong | mekong9-hash/src/internal/city.rs:393-449 | for every length above 64 the loop equals the fold over 64-byte blocks, stays inside the slice and reads exactly all of it |
| CityHash64.ComputeLen0To16 | mekong9-hash/src/internal/city.rs:143-174 | computes its case from the words loaded, and reads exactly the whole input |
| CityHash64.ComputeLen17To32 | mekong9-hash/src/internal/city.rs:191-205 | computes its case from the words loaded, and reads exactly the whole input |
| CityHash64.ComputeLen33To64 | mekong9-hash/src/internal/city.rs:223-272 | computes its case from the words loaded, and reads exactly the whole input |
| CityHash64.ComputeHash64 | mekong9-hash/src/internal/city.rs:381-449 | `hash64` reads exactly the whole input, whatever its length |
| CityHash64.SeedingAddsNoCollisions | mekong9-hash/src/internal/city.rs:457-459 | for fixed seeds and all inputs, the seeded hashes agree if and only if the unseeded ones do |
| CityHash64.SeedingAddsNoCollisionsWithOneSeed | mekong9-hash/src/internal/city.rs:452-454 | the same with one seed |
| CityHash64.FirstSeedMatters | mekong9-hash/src/internal/city.rs:457-459 | for every input and second seed, different first seeds give different hashes |
| CityHash64.SecondSeedMatters | mekong9-hash/src/internal/city.rs:457-459 | for every input and second seed there is a first seed for which the hash is a given function of the second seed alone |
| CityHash64.SecondSeedInjective | mekong9-hash/src/internal/city.rs:121-128 | that function is injective |
| CityHash64.SharedLastWordNeverCollides | mekong9-hash/src/internal/city.rs:153-162 | inputs of equal length, 4 to 7 bytes, that share their last four bytes have equal `hash64` values if and only if they are equal |
| LowLevel.RandomWord | mekong9-hash/src/internal/low_level.rs:61-67 | loading the static random data at a multiple of 8 gives back the word stored there |
| LowLevel.LoadsDiffer | mekong9-hash/src/internal/low_level.rs:296-300 | the 33 loads of random data that a length can select are pairwise different |
| LowLevel.LengthIsMixedIn | mekong9-hash/src/internal/low_level.rs:296-300 | for every state, the mixed states of two lengths agree if and only if the lengths do |
| LowLevel.StateIsKept | mekong9-hash/src/internal/low_level.rs:296-300 | for every length, the mixed states agree if and only if the states do |
| LowLevel.SmallWordInjective | mekong9-hash/src/internal/low_level.rs:256-319 | inputs of equal length up to 8 bytes reach the mixer as the same word if and only if they are equal |
| LowLevel.Read9To16Injective | mekong9-hash/src/internal/low_level.rs:252-254 | the two overlapping words of 9 to 16 bytes agree if and only if the inputs do |
| LowLevel.Read17To32Injective | mekong9-hash/src/internal/low_level.rs:343-352 | the four words of 17 to 32 bytes agree if and only if the inputs of that length do |
| LowLevel.ComputeSmall | mekong9-hash/src/internal/low_level.rs:308-320 | for up to 8 bytes, computes its case from the words loaded, and reads exactly the whole input |
| LowLevel.Compute9To16 | mekong9-hash/src/internal/low_level.rs:323-334 | computes its case from the words loaded, and reads exactly the whole input |
| LowLevel.Compute17To32 | mekong9-hash/src/internal/low_level.rs:337-354 | computes its case from the words loaded, and reads exactly the whole input |
| LowLevel.ComputeHash33To64 | mekong9-hash/src/internal/low_level.rs:461-469 | the two overlapping 32-byte mixes read exactly the whole input |
| LowLevel.Block | mekong9-hash/src/internal/low_level.rs:490-503 | one iteration is the round function of its block, one lane for each 16 bytes, and loads exactly its 64 bytes |
| LowLevel.ComputeHashGt64 | mekong9-hash/src/internal/low_level.rs:472-525 | for every length above 64 the loop and what follows it equal the fold over 64-byte blocks, stay inside the slice and read exactly all of it |
| LowLevel.MergeInjective | mekong9-hash/src/internal/low_level.rs:513-514 | merging the lanes is injective in each of them |
| LowLevel.ComputeHashGt32 | mekong9-hash/src/internal/low_level.rs:527-535 | the dispatch between the two reads exactly the whole input |
| Streaming.CombineContiguous | mekong9-hash/src/internal/low_level.rs:74-191 | both entry points terminate, compute `Combine`, chunk by chunk with each chunk's hash seeding the next, and read exactly the whole input |
| Streaming.ShortIsMixer | mekong9-hash/src/internal/low_level.rs:174-186 | a short input's hash depends only on the mixed state and the words read |
| Streaming.MixerSeesAll | mekong9-hash/src/internal/low_level.rs:174-186 | short inputs of any two lengths have the same mixed state and words if and only if they are the same |
| Streaming.ChunksOf1024 | mekong9-hash/src/internal/low_level.rs:583-601 | above 32 bytes on 64 bits, 8 on 32 bits, up to 1024 bytes are one block, and beyond that the first 1024 are |
| Streaming.CombineLarge | mekong9-hash/src/internal/low_level.rs:583-601 | so does the dispatch between one block hash and splitting |
| Streaming.SplitAndCombine | mekong9-hash/src/internal/low_level.rs:549-581 | so does the chunk loop with its call back for the rest; an empty input leaves the state alone |
| Streaming.StreamingLaw | mekong9-hash/src/internal/low_level.rs:187-189 | on both platforms, for every state, every input of one or more whole chunks and every non-empty continuation, one call equals two |
| Streaming.PiecesDoNotMatter | mekong9-hash/src/internal/low_level.rs:187-189 | however a stream is cut at chunk boundaries, feeding the pieces equals combining the whole |
| Streaming.EmptyPieceMixes | mekong9-hash/src/internal/low_level.rs:557-561 | for every state, combining an empty range is one fixed mixing step |
| Streaming.EmptyContinuation | mekong9-hash/src/internal/low_level.rs:557-561 | a corollary of the row above: for an empty continuation one call equals two exactly for the states that this step maps to themselves |
| Streaming.EmptyContinuationFails | mekong9-hash/src/internal/low_level.rs:557-561 | for every 1024-byte input there is a state from which, on 32 bits, an empty continuation makes a difference |
| Streaming.EmptyPieceCounts | mekong9-hash/src/internal/low_level.rs:557-561 | a corollary: the default state zero is not one of them |
| KnownValues.Hash32Of2 | mekong9-hash/src/internal/city.rs:474 | the table's value of `hash32` for its 2 bytes |
| KnownValues.Hash32Of8 | mekong9-hash/src/internal/city.rs:480 | the table's value of `hash32` for its 8 bytes |
| KnownValues.Hash32Of24 | mekong9-hash/src/internal/city.rs:496 | the table's value of `hash32` for its 24 bytes |
| KnownValues.Hash32Of40 | mekong9-hash/src/internal/city.rs:512 | the table's value of `hash32`, one round for its 40 bytes |
| KnownValues.Hash64OfNothing | mekong9-hash/src/internal/city.rs:472 | the table's value of `hash64`, `hash64_with_seed` and `hash64_with_seeds` for its 0 bytes |
| KnownValues.Hash64Of3 | mekong9-hash/src/internal/city.rs:475 | the table's value of `hash64` for its 3 bytes |
| KnownValues.Hash64Of6 | mekong9-hash/src/internal/city.rs:478 | the table's value of `hash64` for its 6 bytes |
| KnownValues.Hash64Of16 | mekong9-hash/src/internal/city.rs:488 | the table's value of `hash64` for its 16 bytes |
| KnownValues.Hash64Of32 | mekong9-hash/src/internal/city.rs:504 | the table's value of `hash64` for its 32 bytes |
| KnownValues.Hash64Of64 | mekong9-hash/src/internal/city.rs:536 | the table's value of `hash64` for its 64 bytes |
| KnownValues.Hash64Of72 | mekong9-hash/src/internal/city.rs:544 | the table's value of `hash64`, one round for its 72 bytes |
| KnownValues.LowLevelOf64 | mekong9-hash/src/internal/low_level.rs:1130 | the table's value of the portable low-level hash for its 64 bytes and seed |
| KnownValues.LowLevelOf96 | mekong9-hash/src/internal/low_level.rs:1162 | the table's value of the portable low-level hash for its 96 bytes and seed |
| KnownValues.LowLevelOf128 | mekong9-hash/src/internal/low_level.rs:1194 | the table's value of the portable low-level hash for its 128 bytes and seed |
| KnownValues.CombineOf3 | mekong9-hash/src/internal/low_level.rs:278-290 | the value of the entry point for 3 bytes, on both platforms, worked out from the constants |
| KnownValues.CombineOf8 | mekong9-hash/src/internal/low_level.rs:259-274 | the value of the entry point for 8 bytes, on both platforms, worked out from the constants |
| KnownValues.CombineOf16 | mekong9-hash/src/internal/low_level.rs:323-334 | the value of the entry point for 16 bytes, worked out from the constants |
| KnownValues.CombineOf32 | mekong9-hash/src/internal/low_level.rs:337-354 | the value of the entry point for 32 bytes, worked out from the constants |
| KnownValues.CombineOf24On32 | mekong9-hash/src/internal/low_level.rs:538-542 | the value of the entry point for 24 bytes on 32 bits, which are a block there, worked out from the constants |

## Left out

- Weak memory orderings and `fence_acquire`: memory is sequentially consistent.
- `ThreadData` lifetime: a thread owns one node whose memory outlives all references and is used again by its next `park!`; the thread-local variant is not modelled.
- Mutex and parkers are transition systems over values, because their objects are shared between threads that interleave; only the list work, which the queue bit protects, is on mutable objects.
- SpinWait and FairTimeout: whether to spin, and whether the timeout has fired, are free choices.
- Termination under fair scheduling: `MutexProgress` says that every reachable state can be finished from, not that every schedule does so, which barging and spurious failures prevent.
- WaitGroup.StepKeeps: `abort_self` is one step that either takes the node out of the list or leaves it behind, because its search of the list and the lifetime of aborted nodes are not modelled; one transition to zero, a counter that does not go negative, and no reuse for a second generation.
- WaitGroup.UnparkedOnce: counts removals from the list as a sequence; that the nodes' pointers are this sequence in every run, and that the walk along them unparks each node once, is stated by `WaitGroupList.PointersAreLists`, `CutList.CutIsChained` and `CutList.UnparkAll`.
- Semaphore `park_until` (`mekong9-parker/src/semaphore.rs:92-123`) and the whole of `pthread.rs`.
- System calls, clocks and the conversion of timeouts: a futex wait may end at any moment, a timeout may fire at any moment.
- The AES and CRC paths of the low-level hash, prefetching, and big-endian byte order.
- A 32-bit `usize` in `hash64`, where a shift would be truncated (`mekong9-hash/src/internal/city.rs:157`).
- The quality of mixing: nothing is said about the 128-bit product of `mix` except that it is the same on both sides of an equation.
- `raw_rwlock.rs`, guards, `CachePadded`, `Backoff`, the `hash_table` module and the integer methods of `MixingHasher`.
