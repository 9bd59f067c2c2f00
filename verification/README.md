# Verified model of the asio fork/join pool, buffers and session protocols

This project models the parts of the repository that are hardest to get right and
proves what they promise over every input and every interleaving:

* the **fork/join pool** (`fork_join_pool.dfy`, `fork_join_safety.dfy`,
  `fork_join_theorems.dfy`, `fork_join_deadlock.dfy`), the parallel sort
  (`fork_join_sort.dfy`), and the sort as it runs on the pool (`sort_on_pool.dfy`,
  `sort_on_pool_tasks.dfy`, `sort_on_pool_safety.dfy`, `sort_on_pool_theorems.dfy`);
* the **scatter/gather buffers**: copying, byte iterators, partial transfers and
  growable buffers (`buffers.dfy`, `buffers_iterator.dfy`, `consuming_buffers.dfy`,
  `dynamic_buffers.dfy`);
* the **session protocols**: the TCP session with its deadlines, the actor token
  ring, the pipeline, the chat room (`tcp_session.dfy`, `token_ring.dfy`,
  `pipeline.dfy`, `chat_room.dfy`, `chat_messages.dfy`);
* **byte and carry arithmetic**: the socket stream buffer and the IPv6 address
  iterator (`socket_streambuf.dfy`, `address_v6.dfy`).

`basics.dfy` holds what several of them share.

## How the model is built

Each object the source updates in place is a class. Its methods have the branches
and loops of the source and are proved equal to a function on values
(`Value() == F(old(Value()))`) or proved against the property itself. The concurrent
protocols are step systems over the same functions: one step per region that holds
the mutex, or per handler. A run is any sequence of enabled steps, so a statement
about runs covers every schedule, every choice of the thread that a notification
wakes, and spurious wake-ups. Each protocol has one invariant, one lemma per kind of
step that keeps it, and theorems drawn from it.

Buffers are pairs of a start address and a size over one array of bytes. A buffer
sequence denotes the sequence of its addresses, `Flat`, and every buffer operation
is specified by it.

A pool thread is a stack of frames, because a joining thread borrows functions from
the queue. Every function carries the stamp of its start, and every group the stamp of
the function that created it. These stamps order the wait edges and give the deadlock
argument.

The sort is modelled twice: as a task that any scheduler may advance, and as calls that
run on the pool's threads, create groups, dispatch, join and borrow. The second is
proved to be an instance of the first.

## What the code does not promise

* **Deadlock.** A function waits for the functions of every group joined above it on its
  stack. Functions that wait for each other in a circle wait for ever
  (`WaitCycleNeverReturns`); a function that joins its own group is the shortest circle
  (`SelfJoinDeadlocks`). Explicit work left on a group that a function joins has the same
  effect until it ends (`ExplicitWorkDeadlocks`). The condition is exact: by
  taking functions, finishing them and leaving joins the threads can bring all functions
  to their end if and only if there is no circle and no wait for explicit work
  (`CanFinishIff`, `PoolCanFinishIff`). Functions that join only groups
  they created never make a circle (`CreatorsMakeNoCycle`, `NoDeadlock`), and
  fork_join_sort is such a function (`SortHasNoWaitCycle`). Code outside the pool may join
  anything.
* **The output deadline.** The comment at `examples/cpp11/timeouts/server.cpp:136-138`
  gives a message 30 seconds to be sent. The code never clears the deadline after
  the write, so a session that has nothing to send is stopped 30 seconds after its last
  write began (`IdleOutputIsStopped`). `DeadlinesFireExactly` gives the exact condition.
* **A flush that fails half way.** overflow leaves the put area as it is when a send
  fails, so bytes sent before the failure go out again (`ResentByte`). The stream is
  intact after a failure if and only if no send took a byte (`Overflow`).
* **find on an address range** compares addresses with their scopes and does not wrap.
  Within one scope it is right in every range that does not wrap (`FindIsExact`), but it
  finds addresses of a foreign scope that the iteration never visits, and nothing in a
  range that wraps. If begin and end differ in scope the iteration never ends
  (`IterationEndsIff`, `VisitedForever`). `FindAgreesExactly` gives the exact condition for
  every address and every range; right on all addresses find is only in an empty range
  (`FindAgreesOnlyOnEmpty`).
* **underflow** answers end-of-file while the get area is not empty; stream code calls it
  only when the area is empty.

## Assumptions

* Pool: at least one worker; functions return normally; after `stop_threads` new work
  comes only from running functions.
* Sort on the pool: one thread outside the pool calls the sort, and nothing else uses the
  pool until that call is done.
* `std::sort` and `std::inplace_merge` meet their contracts; while they work they may
  write anything into their own range.
* `buffer_copy`: target bytes overlap neither each other nor the source. Sizes are
  unbounded integers; the default limit is a limit no smaller than both sizes.
* Iterators move within bounds, as their assertions demand, so the branch of a backward
  advance that has reached the first buffer too early does not arise.
* TCP session: changing or cancelling a timer makes its pending handler runnable;
  `async_read_until` succeeds only with a newline in the buffer; the clock is a number
  of seconds that never goes back. Delivery by the channel to a live session is an event
  of its own, except for the echo of its own lines; the handler returns the line it hands
  to the channel.
* Token ring: mailboxes are FIFO; `call_handler` visits the handlers present when the
  message was taken.
* Stream buffer: the outcomes of `send` and `recv` are a script; the end of the script is
  the moment the expiry time has passed. A successful `send` takes at least one byte and
  `recv` returns no more than the space offered.
* Pipeline: stages treat one line at a time, and `toupper` is that of ASCII.

## Model

| member | source | states |
|---|---|---|
| ForkJoinPool.PoolObject.constructor | examples/cpp11/executors/fork_join.cpp:25-51 | A new pool has an empty queue, a use count of 1 for its owner, no group and the given thread count. |
| ForkJoinPool.PoolObject.DoWorkStarted | examples/cpp11/executors/fork_join.cpp:103-107 | Counts one more piece of work for the group, and one more user of the pool exactly when the group was idle. |
| ForkJoinPool.PoolObject.DoWorkFinished | examples/cpp11/executors/fork_join.cpp:110-117 | Counts one piece of work less; when the group runs out, and only then, the pool loses a user and all threads wake. |
| ForkJoinPool.PoolObject.TakeNext | examples/cpp11/executors/fork_join.cpp:72-81 | Reports an empty queue without changing anything, else removes exactly the oldest function. |
| ForkJoinPool.PoolObject.DoPost | examples/cpp11/executors/fork_join.cpp:140-147 | The function goes to the end of the queue and is counted for its group; one blocked thread, if any, wakes. |
| ForkJoinPool.PoolObject.DoDispatch | examples/cpp11/executors/fork_join.cpp:121-137 | Runs the function inline exactly when more than 16 functions per worker are queued; else it is queued last and wakes a thread; either way it is counted. |
| ForkJoinPool.PoolObject.StopThreads | examples/cpp11/executors/fork_join.cpp:150-155 | Gives up the owner's use of the pool and wakes every thread. |
| ForkJoinSafety.NotifiedIsAlert | examples/cpp11/executors/fork_join.cpp:135-146 | Any thread that notify_one can pick is a worker or waits in a join whose group has work, so it comes back to the queue. |
| ForkJoinSafety.SubmitWakes | examples/cpp11/executors/fork_join.cpp:133-135 | After a submission some awake thread will come back to the queue, whichever thread the notification picked. |
| ForkJoinSafety.FinishWakes | examples/cpp11/executors/fork_join.cpp:110-117 | When a piece of work ends, every thread still blocked has a loop condition that holds, and queued functions still have an awake thread. |
| ForkJoinSafety.UnusedIsDrained | examples/cpp11/executors/fork_join.cpp:39-41 | A use count of 0 means stopped, nothing queued, nothing running, no explicit work. |
| ForkJoinSafety.StillUsed | examples/cpp11/executors/fork_join.cpp:103-107 | Whoever may submit work finds the pool in use and its first worker in its loop. |
| ForkJoinSafety.KeepExit | examples/cpp11/executors/fork_join.cpp:36-42 | A worker leaving its loop keeps the invariant. |
| ForkJoinSafety.KeepSleepWake | examples/cpp11/executors/fork_join.cpp:40-41 | Blocking on the condition variable and spurious wake-ups keep the invariant. |
| ForkJoinSafety.KeepStop | examples/cpp11/executors/fork_join.cpp:150-155 | stop_threads keeps the invariant. |
| ForkJoinSafety.KeepNewGroup | examples/cpp11/executors/fork_join.cpp:170-174 | Creating a fork_executor keeps the invariant. |
| ForkJoinSafety.KeepBeginWork | examples/cpp11/executors/fork_join.cpp:181-185 | on_work_started keeps the invariant. |
| ForkJoinSafety.KeepEndWork | examples/cpp11/executors/fork_join.cpp:187-191 | on_work_finished keeps the invariant. |
| ForkJoinSafety.KeepSubmit | examples/cpp11/executors/fork_join.cpp:131-147 | Queueing a function, by post or by dispatch, keeps the invariant. |
| ForkJoinSafety.KeepInline | examples/cpp11/executors/fork_join.cpp:121-130 | Running a dispatched function inline keeps the invariant. |
| ForkJoinSafety.KeepTake | examples/cpp11/executors/fork_join.cpp:72-81 | A worker or a joining thread that borrows a function keeps the invariant. |
| ForkJoinSafety.KeepStartJoin | examples/cpp11/executors/fork_join.cpp:231-234 | Entering a join keeps the invariant. |
| ForkJoinSafety.KeepJoinReturn | examples/cpp11/executors/fork_join.cpp:234-237 | Leaving a join keeps the invariant. |
| ForkJoinSafety.KeepReturn | examples/cpp11/executors/fork_join.cpp:84-100 | The end of a function keeps the invariant. |
| ForkJoinSafety.KeepInv | examples/cpp11/executors/fork_join.cpp:36-155 | Every step of every thread keeps the whole invariant. |
| ForkJoinSafety.InitialInv | examples/cpp11/executors/fork_join.cpp:25-51 | The invariant holds when the constructor has started the workers. |
| ForkJoinSafety.RunInv | examples/cpp11/executors/fork_join.cpp:36-237 | The invariant holds in every state of every run. |
| ForkJoinTheorems.QueueHasAwakeThread | examples/cpp11/executors/fork_join.cpp:36-42 | No lost wake-up: in every reachable state with queued functions some worker, or some thread in a join whose group has work, is awake. |
| ForkJoinTheorems.WorkAccounting | examples/cpp11/executors/fork_join.cpp:103-117 | In every reachable state each work count is queued plus running plus explicit work of the group, and the use count is 1 unless stopped plus the number of groups with work. |
| ForkJoinTheorems.GroupDone | examples/cpp11/executors/fork_join.cpp:103-117 | A submitted function whose group has no work left has finished. |
| ForkJoinTheorems.JoinReturnsAfterGroup | examples/cpp11/executors/fork_join.cpp:231-237 | join returns only after every function submitted to its group has finished. |
| ForkJoinTheorems.WorkersLeaveDrainedPool | examples/cpp11/executors/fork_join.cpp:36-42 | A worker leaves only a stopped pool in which every submitted function has finished. |
| ForkJoinTheorems.RunsAtMostOnce | examples/cpp11/executors/fork_join.cpp:72-100 | A submitted function is queued, running or finished, exactly one of them and exactly once; no other function ever is. |
| ForkJoinTheorems.DispatchDecides | examples/cpp11/executors/fork_join.cpp:121-137 | A dispatched function runs on top of the dispatching thread exactly when more than 16 functions per worker are queued; else it is queued last and no stack changes. |
| ForkJoinTheorems.QueueStaysShort | examples/cpp11/executors/fork_join.cpp:125-136 | Without posts the queue never holds more than 16 functions per worker and one. |
| ForkJoinTheorems.PostQueues | examples/cpp11/executors/fork_join.cpp:140-147 | A posted function is queued last and counted, and the notified thread wakes. |
| ForkJoinTheorems.TakesTheOldest | examples/cpp11/executors/fork_join.cpp:72-81 | Functions are taken in the order in which they were submitted, and run on top of the thread that takes them. |
| ForkJoinTheorems.StopWakesAll | examples/cpp11/executors/fork_join.cpp:150-155 | stop_threads gives up one use of the pool and wakes every thread. |
| ForkJoinTheorems.WorkersCanLeave | examples/cpp11/executors/fork_join.cpp:36-58 | Once the pool is stopped and has nothing left to do, every worker that has not left is awake and can leave. |
| ForkJoinDeadlock.StackStep | examples/cpp11/executors/fork_join.cpp:72-137 | A step leaves every frame alone except the top one of the thread that takes it. |
| ForkJoinDeadlock.QueueAdvances | examples/cpp11/executors/fork_join.cpp:36-42 | While a function is queued, some thread can take one, finish one or leave a join. |
| ForkJoinDeadlock.WaitStays | examples/cpp11/executors/fork_join.cpp:231-237 | A join of a group with work outlives every step, and so does the function below it. |
| ForkJoinDeadlock.StepKeepsCycle | examples/cpp11/executors/fork_join.cpp:231-237 | No step of any thread ends a cycle of functions that wait for each other's groups. |
| ForkJoinDeadlock.WaitCycleNeverReturns | examples/cpp11/executors/fork_join.cpp:231-237 | Functions that wait for each other in a circle, of any length, wait for ever in every continuation of every run. |
| ForkJoinDeadlock.StuckFunctionWaits | examples/cpp11/executors/fork_join.cpp:229-237 | If the pool cannot move, the thread of every running function is blocked in a join made by a function. |
| ForkJoinDeadlock.FindCycle | examples/cpp11/executors/fork_join.cpp:229-237 | Following the waits of a pool that cannot move, without explicit work and with an empty queue, comes back to a cycle. |
| ForkJoinDeadlock.Progress | examples/cpp11/executors/fork_join.cpp:72-155 | Without a cycle and without waits for explicit work, unfinished functions imply a thread that can take, finish or stop waiting for one. |
| ForkJoinDeadlock.ProductiveDecreases | examples/cpp11/executors/fork_join.cpp:72-117 | Taking, finishing and leaving a join each lower the remaining work. |
| ForkJoinDeadlock.ProductiveMakesNoCycle | examples/cpp11/executors/fork_join.cpp:72-117 | Taking, finishing and leaving a join never make a cycle of waits. |
| ForkJoinDeadlock.CanAlwaysFinish | examples/cpp11/executors/fork_join.cpp:53-58 | Without a cycle and without waits for explicit work, the threads can run every submitted function to its end. |
| ForkJoinDeadlock.StepKeepsExplicitWait | examples/cpp11/executors/fork_join.cpp:181-191 | Only the end of explicit work ends the wait of a function for it. |
| ForkJoinDeadlock.CanFinishIff | examples/cpp11/executors/fork_join.cpp:53-58 | Exactly: all submitted functions can be brought to their end if and only if there is no cycle of waits and no function waits for explicit work. |
| ForkJoinDeadlock.PoolCanFinishIff | examples/cpp11/executors/fork_join.cpp:36-237 | The same for every state of every run. |
| ForkJoinDeadlock.WaitGoesUp | examples/cpp11/executors/fork_join.cpp:229-237 | If functions join only groups they created, each waits for functions that started later. |
| ForkJoinDeadlock.CreatorsMakeNoCycle | examples/cpp11/executors/fork_join.cpp:229-237 | Then there is no cycle of waits. |
| ForkJoinDeadlock.RunKeepsDiscipline | examples/cpp11/executors/fork_join.cpp:263-269 | A run in which functions join only groups they created stays free of foreign joins. |
| ForkJoinDeadlock.NoDeadlock | examples/cpp11/executors/fork_join.cpp:36-237 | Such a run can always be finished, exactly unless a function waits for explicit work. |
| ForkJoinDeadlock.SelfJoinDeadlocks | examples/cpp11/executors/fork_join.cpp:231-237 | A run in which a function joins its own group and every thread ends blocked. |
| ForkJoinDeadlock.ExplicitWorkDeadlocks | examples/cpp11/executors/fork_join.cpp:181-191 | A run in which a function joins a group it created with explicit work left, and every thread ends blocked. |
| ForkJoinSort.StepStaysInRange | examples/cpp11/executors/fork_join.cpp:284-302 | A step of a sort task writes only inside the range of the task. |
| ForkJoinSort.GoodFrame | examples/cpp11/executors/fork_join.cpp:284-302 | Writes outside its range do not disturb a task. |
| ForkJoinSort.MergeStartsRight | examples/cpp11/executors/fork_join.cpp:290-296 | When both forked halves are done, the merge starts on two sorted halves of a permutation of the original range. |
| ForkJoinSort.StepKeepsGood | examples/cpp11/executors/fork_join.cpp:284-302 | Every step of any part of the task keeps the task correct with respect to the original array. |
| ForkJoinSort.RunKeepsGood | examples/cpp11/executors/fork_join.cpp:284-302 | The same along every run, with nothing changed outside the range. |
| ForkJoinSort.SortsUnderEverySchedule | examples/cpp11/executors/fork_join.cpp:284-302 | Under every schedule nothing outside the range changes, and on return the range is a sorted permutation of what it was. |
| ForkJoinSort.MergePreconditionHolds | examples/cpp11/executors/fork_join.cpp:296-296 | Every inplace_merge is called on two sorted halves. |
| ForkJoinSort.RunKeepsCut | examples/cpp11/executors/fork_join.cpp:287-300 | In every run exactly the ranges of more than 32768 elements are cut, in halves that differ by at most one element; the others are sorted directly. |
| ForkJoinSort.StepDescends | examples/cpp11/executors/fork_join.cpp:284-302 | Every step is a write of a running sort or merge, or brings the end closer. |
| ForkJoinSort.NeverStuck | examples/cpp11/executors/fork_join.cpp:284-302 | A call that has not returned can take a step that brings the end closer. |
| SortOnPool.TreeUpdate | examples/cpp11/executors/fork_join.cpp:284-302 | Changing the phase of one call keeps the tree of calls, if no unfinished half is lost. |
| SortOnPool.TreeFork | examples/cpp11/executors/fork_join.cpp:293-294 | Dispatching a half keeps the tree of calls. |
| SortOnPoolTasks.UnderOneChild | examples/cpp11/executors/fork_join.cpp:293-294 | No call belongs to both halves of another call. |
| SortOnPoolTasks.TaskSame | examples/cpp11/executors/fork_join.cpp:284-302 | A step of a call does not show in a task that it does not belong to. |
| SortOnPoolTasks.Lift | examples/cpp11/executors/fork_join.cpp:284-302 | A step of one call is a step of every task that it belongs to, up to the whole sort. |
| SortOnPoolSafety.RunsHere | examples/cpp11/executors/fork_join.cpp:72-100 | A running function is neither queued nor finished nor running elsewhere. |
| SortOnPoolSafety.CodeFrameIsUnique | examples/cpp11/executors/fork_join.cpp:72-100 | A call runs in one frame of one thread only. |
| SortOnPoolSafety.KeepBackground | examples/cpp11/executors/fork_join.cpp:36-42 | Workers and joins that take calls, block, wake and leave keep the invariant of the sort on the pool. |
| SortOnPoolSafety.KeepNewGroupCall | examples/cpp11/executors/fork_join.cpp:288-292 | A call above the threshold that creates its group keeps the invariant. |
| SortOnPoolSafety.KeepForkCall | examples/cpp11/executors/fork_join.cpp:293-294 | Dispatching a half, queued or inline, keeps the invariant. |
| SortOnPoolSafety.KeepWaitCall | examples/cpp11/executors/fork_join.cpp:292-295 | Entering the join keeps the invariant. |
| SortOnPoolSafety.HalvesAreDone | examples/cpp11/executors/fork_join.cpp:292-296 | When a thread leaves the join, both halves of the call that waited are done. |
| SortOnPoolSafety.KeepResumeCall | examples/cpp11/executors/fork_join.cpp:295-296 | Leaving the join and starting the merge keeps the invariant. |
| SortOnPoolSafety.KeepLeaveCall | examples/cpp11/executors/fork_join.cpp:84-100 | A call that returns keeps the invariant. |
| SortOnPoolSafety.KeepSysInv | examples/cpp11/executors/fork_join.cpp:284-302 | Every step of every thread keeps the whole invariant. |
| SortOnPoolTheorems.ForkSame | examples/cpp11/executors/fork_join.cpp:293-294 | Dispatching a half does not change the task of the sort. |
| SortOnPoolTheorems.StepRefines | examples/cpp11/executors/fork_join.cpp:284-302 | Every step on the pool is one step of the schedule-free sort, or none. |
| SortOnPoolTheorems.RunSysInv | examples/cpp11/executors/fork_join.cpp:284-302 | The invariant holds in every state of every run. |
| SortOnPoolTheorems.InducedRun | examples/cpp11/executors/fork_join.cpp:284-302 | Every run of the sort on the pool is a run of the schedule-free sort with the same array and task. |
| SortOnPoolTheorems.PoolSortIsCorrect | examples/cpp11/executors/fork_join.cpp:284-302 | Whatever workers, joins and the scheduler do, nothing outside the range changes, and when the first call is done the range is a sorted permutation. |
| SortOnPoolTheorems.PoolSortIsWellCut | examples/cpp11/executors/fork_join.cpp:287-300 | On the pool, too, exactly the ranges of more than 32768 elements are cut in half. |
| SortOnPoolTheorems.SortQueueStaysShort | examples/cpp11/executors/fork_join.cpp:125-136 | However large the range, at most 16 calls per worker and one are queued. |
| SortOnPoolTheorems.CallsJoinOwnGroups | examples/cpp11/executors/fork_join.cpp:291-295 | Every call joins only the group it created, without explicit work. |
| SortOnPoolTheorems.SortHasNoWaitCycle | examples/cpp11/executors/fork_join.cpp:284-302 | The pool a sort runs on never has a cycle of waits. |
| SortOnPoolTheorems.UsefulDecreases | examples/cpp11/executors/fork_join.cpp:284-302 | Every step of a call, and every call taken from the queue, lowers the work that is left. |
| SortOnPoolTheorems.CallGoesOn | examples/cpp11/executors/fork_join.cpp:284-302 | A call on top of a stack can always go on. |
| SortOnPoolTheorems.SortProgress | examples/cpp11/executors/fork_join.cpp:284-302 | Until the first call is done, some thread can bring the end closer. |
| SortOnPoolTheorems.CanAlwaysSort | examples/cpp11/executors/fork_join.cpp:284-302 | From every state that satisfies the invariant the threads can finish the sort. |
| SortOnPoolTheorems.SortCanFinish | examples/cpp11/executors/fork_join.cpp:284-302 | The same for every state of every run. |
| SortOnPoolTheorems.UsefulMovesAreBounded | examples/cpp11/executors/fork_join.cpp:284-302 | The useful moves of every run so far and the work left are together at most the work at its start. |
| SortOnPoolTheorems.WorkAtStart | examples/cpp11/executors/fork_join.cpp:284-302 | The work at the start is at most 24 moves per element and one per thread, or 2 and one per thread for no elements. |
| Buffers.OffsetLimitFlat | include/asio/buffer/buffer.hpp:427-475 | Offsetting a buffer drops min(n, size) addresses at the front; limiting it keeps min(max, size). |
| Buffers.BufferSize | include/asio/buffer/buffer.hpp:379-392 | Returns the number of bytes of the flat view. |
| Buffers.CopiedBytes | include/asio/buffer/buffer.hpp:1680-1697 | What the copy contract says of the bytes: the target becomes source[..n] followed by its old bytes from n on; the source is unchanged. |
| Buffers.BufferCopy1 | include/asio/buffer/buffer.hpp:1703-1713 | Copies min(target size, source size) bytes and changes nothing else. |
| Buffers.CopyMore | include/asio/buffer/buffer.hpp:1800-1801 | One memcpy between two cursors at the same flat position extends the copied prefix. |
| Buffers.CopyRound | include/asio/buffer/buffer.hpp:1840-1849 | One round of a copy loop copies what both current pieces and the limit allow. |
| Buffers.BufferCopyOneOne | include/asio/buffer/buffer.hpp:1715-1731 | One buffer to one: returns min of target size, source size and limit, and copies exactly that prefix. |
| Buffers.BufferCopyOneMany | include/asio/buffer/buffer.hpp:1733-1754 | Many buffers to one: the same contract over the flat views. |
| Buffers.BufferCopyManyOne | include/asio/buffer/buffer.hpp:1756-1777 | One buffer to many: the same contract. |
| Buffers.BufferCopyManyMany | include/asio/buffer/buffer.hpp:1779-1821 | Many to many, no limit: the same contract, and the two-cursor loop ends even with empty buffers. |
| Buffers.BufferCopyManyManyLimited | include/asio/buffer/buffer.hpp:1823-1869 | Many to many with a limit: the same contract, and the loop ends. |
| BuffersIterators.CursorIsUnique | include/asio/buffer/buffers_iterator.hpp:301-321 | A flat position has only one cursor that stands on a byte or past the end. |
| BuffersIterators.BuffersIterator.Begin | include/asio/buffer/buffers_iterator.hpp:114-131 | Stands on the cursor of position 0. |
| BuffersIterators.BuffersIterator.End | include/asio/buffer/buffers_iterator.hpp:134-150 | Stands past the last buffer, at the total size. |
| BuffersIterators.BuffersIterator.SkipEmpty | include/asio/buffer/buffers_iterator.hpp:314-320 | Finds the next non-empty buffer without moving the position. |
| BuffersIterators.BuffersIterator.Dereference | include/asio/buffer/buffers_iterator.hpp:288-292 | Yields the address of the byte at the position in the flat view. |
| BuffersIterators.BuffersIterator.Equal | include/asio/buffer/buffers_iterator.hpp:295-298 | Compares positions. |
| BuffersIterators.BuffersIterator.Increment | include/asio/buffer/buffers_iterator.hpp:301-321 | Moves to the cursor of the next position, across any number of empty buffers. |
| BuffersIterators.BuffersIterator.Decrement | include/asio/buffer/buffers_iterator.hpp:324-351 | Moves to the cursor of the previous position, also from the end. |
| BuffersIterators.BuffersIterator.StepBack | include/asio/buffer/buffers_iterator.hpp:336-350 | Finds the end of the previous non-empty buffer, at the same flat position. |
| BuffersIterators.BuffersIterator.Advance | include/asio/buffer/buffers_iterator.hpp:354-432 | Moves by n to the cursor of the new position. |
| BuffersIterators.BuffersIterator.AdvanceForward | include/asio/buffer/buffers_iterator.hpp:356-388 | The forward loop reaches the cursor n bytes ahead and ends. |
| BuffersIterators.BuffersIterator.AdvanceBack | include/asio/buffer/buffers_iterator.hpp:389-431 | The backward loop reaches the cursor n bytes back and ends. |
| BuffersIterators.BuffersIterator.DistanceTo | include/asio/buffer/buffers_iterator.hpp:435-438 | The distance is what must be added to reach the other position. |
| BuffersIterators.BuffersIterator.At | include/asio/buffer/buffers_iterator.hpp:165-170 | operator[] yields the byte n positions away and leaves the iterator alone. |
| BuffersIterators.EqualIteratorsAgree | include/asio/buffer/buffers_iterator.hpp:295-298 | Iterators over the same buffers with equal positions agree in all they can observe. |
| BuffersIterators.Replay | include/asio/buffer/buffers_iterator.hpp:301-432 | After any in-bounds mix of ++, --, += and -= the iterator is valid and stands where the sum of the moves says. |
| BuffersIterators.PositionWithin | include/asio/buffer/buffers_iterator.hpp:301-432 | A valid iterator stands in the flat view or at its end. |
| BuffersIterators.AdvanceIsSteps | include/asio/buffer/buffers_iterator.hpp:354-388 | advance(n) and n increments reach the same cursor. |
| BuffersIterators.AdvanceIsStepsBack | include/asio/buffer/buffers_iterator.hpp:389-431 | advance(-n) and n decrements reach the same cursor. |
| BuffersIterators.AdvanceAndBack | include/asio/buffer/buffers_iterator.hpp:354-432 | advance(-n) after advance(n) restores the cursor, for n of either sign. |
| ConsumingBuffersModel.ConsumingBuffers.constructor | include/asio/buffer/consuming_buffers.hpp:74-82 | Starts at flat offset 0. |
| ConsumingBuffersModel.ConsumingBuffers.Empty | include/asio/buffer/consuming_buffers.hpp:85-88 | True exactly when no byte remains. |
| ConsumingBuffersModel.ConsumingBuffers.Prepare | include/asio/buffer/consuming_buffers.hpp:91-112 | Only non-empty pieces, at most the slots; a prefix of the unconsumed bytes of length at most max; all min(max, remaining) of them unless the slots ran out; not empty while bytes remain. |
| ConsumingBuffersModel.ConsumingBuffers.Consume | include/asio/buffer/consuming_buffers.hpp:115-139 | The element cursor denotes the flat offset of the total consumed, also beyond the end. |
| ConsumingBuffersModel.Transfer | include/asio/buffer/consuming_buffers.hpp:91-139 | Any alternation of prepare, partial transfer and consume moves a prefix of the flat bytes in order, and empty() first holds when all are moved; as many calls as bytes are enough if each moves one. |
| ConsumingBuffersModel.WindowIs | include/asio/buffer/consuming_buffers.hpp:91-112 | The window of a transfer is the min(max, remaining) addresses that follow the consumed ones in the flat view. |
| ConsumingBuffersModel.ConsumingSingleBuffer.Empty | include/asio/buffer/consuming_buffers.hpp:169-172 | Agrees with the flat view of one buffer. |
| ConsumingBuffersModel.ConsumingSingleBuffer.Prepare | include/asio/buffer/consuming_buffers.hpp:175-178 | Exactly the next min(max, remaining) bytes. |
| ConsumingBuffersModel.ConsumingSingleBuffer.Consume | include/asio/buffer/consuming_buffers.hpp:181-184 | Adds to the total consumed. |
| ConsumingBuffersModel.ConsumingBufferPair.Empty | include/asio/buffer/consuming_buffers.hpp:295-299 | Agrees with the flat view of two buffers. |
| ConsumingBuffersModel.ConsumingBufferPair.Prepare | include/asio/buffer/consuming_buffers.hpp:302-313 | Exactly the next min(max, remaining) bytes, wherever the boundary lies. |
| ConsumingBuffersModel.ConsumingBufferPair.Consume | include/asio/buffer/consuming_buffers.hpp:316-319 | Adds to the total consumed. |
| ConsumingBuffersModel.PairWindow | include/asio/buffer/consuming_buffers.hpp:250-261 | The two cut buffers are the window of the flat view. |
| ConsumingBuffersModel.SingleRefinesGeneric | include/asio/buffer/consuming_buffers.hpp:169-184 | For every consumption history and max_size the single and the generic form prepare the same bytes, the next min(max, remaining) after the consumed ones, and agree with them on empty(). |
| ConsumingBuffersModel.PairRefinesGeneric | include/asio/buffer/consuming_buffers.hpp:243-267 | The same for the two-element forms. |
| DynamicBuffers.DynamicBuffer.PrepareBytes | include/asio/buffer/buffer.hpp:1415-1426 | Fails exactly when size + n exceeds max_size, changing nothing; else hands out n bytes behind the input sequence. |
| DynamicBuffers.DynamicBuffer.CommitBytes | include/asio/buffer/buffer.hpp:1440-1444 | Moves min(n, output size) bytes into the input sequence and cuts the storage to it. |
| DynamicBuffers.DynamicBuffer.ConsumeBytes | include/asio/buffer/buffer.hpp:1453-1458 | Drops min(n, size) bytes at the front and keeps all others. |
| DynamicBuffers.OperationsOnSequences | include/asio/buffer/buffer.hpp:1394-1458 | The documented input and output sequences are all there is: prepare resizes the output sequence or fails, commit moves its front and discards the rest, consume drops the front of the input sequence and keeps the output sequence. |
| DynamicBuffers.CommitDiscards | include/asio/buffer/buffer.hpp:1428-1444 | A second commit moves nothing. |
| DynamicBuffers.StepConserves | include/asio/buffer/buffer.hpp:1415-1458 | Every operation appends what it commits, drops what it consumes and keeps the storage within max_size. |
| DynamicBuffers.RunConserves | include/asio/buffer/buffer.hpp:1545-1609 | After any sequence of operations data() is the initial content plus all committed minus all consumed bytes, within max_size. |
| TcpSessions.FirstNewline | examples/cpp11/timeouts/server.cpp:213-215 | The index of the first newline, or the length. |
| TcpSessions.TcpSession.Start | examples/cpp11/timeouts/server.cpp:145-168 | The constructor and start(): subscribed, a read and three waits outstanding, only the input deadline set. |
| TcpSessions.TcpSession.StartReading | examples/cpp11/timeouts/server.cpp:196-199 | Sets the input deadline to 30 seconds from now and starts a read. |
| TcpSessions.TcpSession.Deliver | examples/cpp11/timeouts/server.cpp:187-194 | Queues the message with a newline and wakes the output actor. |
| TcpSessions.TcpSession.Stop | examples/cpp11/timeouts/server.cpp:171-180 | Leaves the channel, closes the socket and cancels every wait. |
| TcpSessions.TcpSession.ReadHandler | examples/cpp11/timeouts/server.cpp:205-245 | Cuts the first line off the input; hands it to the channel and queues its echo, or answers a heartbeat exactly when nothing is queued, and reads on under a new deadline; stops on an error; publishes nothing in any other case. |
| TcpSessions.TcpSession.QueueWaitHandler | examples/cpp11/timeouts/server.cpp:252-271 | Sleeps again on an empty queue, else starts writing the front message under a new deadline. |
| TcpSessions.TcpSession.WriteHandler | examples/cpp11/timeouts/server.cpp:283-299 | Removes the written message and waits for output, or stops on an error. |
| TcpSessions.TcpSession.InputDeadlineHandler | examples/cpp11/timeouts/server.cpp:302-327 | Stops the session exactly when the input deadline has passed, else waits again. |
| TcpSessions.TcpSession.OutputDeadlineHandler | examples/cpp11/timeouts/server.cpp:302-327 | The same for the output deadline. |
| TcpSessions.KeepInput | examples/cpp11/timeouts/server.cpp:205-245 | Every handler keeps lines taken plus input buffer equal to the bytes received. |
| TcpSessions.KeepOutput | examples/cpp11/timeouts/server.cpp:187-300 | Every handler keeps written plus queued equal to enqueued, the front message fixed during its write, and the queue signalled. |
| TcpSessions.KeepActors | examples/cpp11/timeouts/server.cpp:159-327 | Every handler keeps the four actors alive in a live session, and a stopped session stopped for good. |
| TcpSessions.KeepDeadlines | examples/cpp11/timeouts/server.cpp:196-327 | Every handler keeps the deadlines tied to the latest read and write. |
| TcpSessions.KeepInv | examples/cpp11/timeouts/server.cpp:145-327 | Every event keeps the whole invariant. |
| TcpSessions.RunInv | examples/cpp11/timeouts/server.cpp:145-327 | The invariant holds in every state of every run. |
| TcpSessions.LiveSession | examples/cpp11/timeouts/server.cpp:248-300 | A live session has exactly four operations outstanding, a queue wait or a write but not both, and a queued message is being written or its waker is runnable. |
| TcpSessions.OutputInOrder | examples/cpp11/timeouts/server.cpp:187-237 | Completed writes followed by the queue are everything enqueued, in order; lines taken and the input buffer are the bytes received. |
| TcpSessions.StopsOnceAndInTime | examples/cpp11/timeouts/server.cpp:171-185 | stop() happens at most once, and by a deadline only 30 seconds or more after the latest read or write started. |
| TcpSessions.LinesAndHeartbeats | examples/cpp11/timeouts/server.cpp:211-239 | A non-empty line is echoed to its sender; a heartbeat is answered exactly when nothing is queued or being written. |
| TcpSessions.DeadlinesFireExactly | examples/cpp11/timeouts/server.cpp:312-325 | A deadline handler of a live session stops it if and only if the latest read (or write, if any) started at least 30 seconds ago. |
| TcpSessions.StopsExactly | examples/cpp11/timeouts/server.cpp:205-325 | A live session stops on an error of a read or write and when a deadline handler finds that 30 seconds have passed since the latest read or write began, and on nothing else. |
| TcpSessions.LinesArePublished | examples/cpp11/timeouts/server.cpp:187-222 | The lines handed to the channel are the non-empty lines taken, in order, and every delivery is queued with a newline. |
| TcpSessions.OutputActorSleepsOrWrites | examples/cpp11/timeouts/server.cpp:252-277 | When the output actor wakes it writes the front message under a new deadline, or sleeps until the next message, however much time passes. |
| TcpSessions.WindDownStep | examples/cpp11/timeouts/server.cpp:205-327 | After stop() a handler starts nothing: the number of outstanding operations falls by one. |
| TcpSessions.StoppedSessionWindsDown | examples/cpp11/timeouts/server.cpp:171-327 | After stop() every handler lowers the number of outstanding operations, and some handler can run until none is left. |
| TcpSessions.IdleOutputIsStopped | examples/cpp11/timeouts/server.cpp:274-300 | A run in which the output deadline stops a session that has sent everything in time and was heard from 10 seconds ago. |
| TokenRing.FirstIndex | examples/cpp14/executors/actor.cpp:124-131 | The first position of a handler, or the length. |
| TokenRing.HandlerList.Register | examples/cpp14/executors/actor.cpp:111-117 | Appends the handler. |
| TokenRing.HandlerList.Deregister | examples/cpp14/executors/actor.cpp:120-136 | Removes the first matching handler, if any; the others keep their order. |
| TokenRing.DeregisterRemovesFirst | examples/cpp14/executors/actor.cpp:120-136 | The same of the function on lists. |
| TokenRing.CallInit | examples/cpp14/executors/actor.cpp:226-233 | An init message turns an uninitialised member into one with only the token handler. |
| TokenRing.CallToken | examples/cpp14/executors/actor.cpp:235-247 | A token message makes an initialised member post exactly one message. |
| TokenRing.TokenFindsHandler | examples/cpp14/executors/actor.cpp:152-164 | In a state that satisfies the invariant a token at the front of a mailbox finds an initialised member. |
| TokenRing.KeepSendInit | examples/cpp14/executors/actor.cpp:270-272 | Each round of the set-up loop keeps the invariant. |
| TokenRing.KeepSendToken | examples/cpp14/executors/actor.cpp:274-276 | Sending a token keeps the invariant. |
| TokenRing.TakeInit | examples/cpp14/executors/actor.cpp:226-233 | Handling an init keeps the invariant. |
| TokenRing.TakeToken | examples/cpp14/executors/actor.cpp:235-247 | Handling a token keeps the invariant. |
| TokenRing.KeepReceiver | examples/cpp14/executors/actor.cpp:186-202 | The receiver's handler and wait() keep the invariant. |
| TokenRing.KeepInv | examples/cpp14/executors/actor.cpp:253-281 | Every step keeps the whole invariant. |
| TokenRing.RunInv | examples/cpp14/executors/actor.cpp:253-281 | The invariant holds in every state of every run, for every ring size and token value. |
| TokenRing.NextMember | examples/cpp14/executors/actor.cpp:271-272 | One more hop leads to the next member, modulo the ring size. |
| TokenRing.NoTokenBeforeInit | examples/cpp14/executors/actor.cpp:226-247 | No member takes a token before it was initialised. |
| TokenRing.TokensConserved | examples/cpp14/executors/actor.cpp:274-280 | Tokens in flight plus tokens received are the tokens sent. |
| TokenRing.StepDescends | examples/cpp14/executors/actor.cpp:235-281 | Every step lowers the remaining work. |
| TokenRing.RunsEnd | examples/cpp14/executors/actor.cpp:253-281 | No run is longer than the work at its start. |
| TokenRing.QuietRing | examples/cpp14/executors/actor.cpp:278-280 | When nothing can happen any more, every token has been received. |
| TokenRing.EveryTokenComesHome | examples/cpp14/executors/actor.cpp:274-281 | A run that cannot go on has exactly one receipt per token: value 0, from member (i + v) mod n for the token given to member i. |
| TokenRing.ReportedGrows | examples/cpp14/executors/actor.cpp:186-202 | The receiver passes messages on in order and loses none. |
| TokenRing.ReceiverIsFifo | examples/cpp14/executors/actor.cpp:186-202 | wait() returns messages in the order in which they were sent to the receiver. |
| TokenRing.RoundedUp | examples/cpp14/executors/actor.cpp:255-258 | The rounded-up value v gives hops <= n * v < hops + n. |
| Pipeline.QueueImpl.Push | examples/cpp11/executors/pipeline.cpp:137-142 | Appends the item and wakes the consumer. |
| Pipeline.QueueImpl.Stop | examples/cpp11/executors/pipeline.cpp:144-149 | Marks the queue stopped, keeps its items and wakes the consumer. |
| Pipeline.QueueImpl.Pop | examples/cpp11/executors/pipeline.cpp:167-179 | Blocks exactly on an empty open queue, fails exactly on an empty stopped one, else removes exactly the oldest item. |
| Pipeline.ReadKeeps | examples/cpp11/executors/pipeline.cpp:258-263 | Reading a line keeps the lines still to come. |
| Pipeline.PopKeeps | examples/cpp11/executors/pipeline.cpp:268-282 | A stage taking a line keeps the lines still to come. |
| Pipeline.PushKeeps | examples/cpp11/executors/pipeline.cpp:269-281 | A stage pushing a line keeps the lines still to come. |
| Pipeline.WriteKeeps | examples/cpp11/executors/pipeline.cpp:285-291 | Printing a line moves it from the lines to come to the lines printed. |
| Pipeline.KeepDetermined | examples/cpp11/executors/pipeline.cpp:198-247 | Every step keeps printed lines plus lines to come equal to what the stages make of the input. |
| Pipeline.KeepQueues | examples/cpp11/executors/pipeline.cpp:137-179 | Every step keeps each queue stopped only after its producer has finished, and each blocked consumer on an empty open queue. |
| Pipeline.KeepInv | examples/cpp11/executors/pipeline.cpp:137-291 | Every step keeps the whole invariant. |
| Pipeline.RunInv | examples/cpp11/executors/pipeline.cpp:137-291 | The invariant holds in every state of every run, for any number of stages and any stage functions. |
| Pipeline.StoppedMeansDrained | examples/cpp11/executors/pipeline.cpp:144-149 | Nothing more will enter a stopped queue. |
| Pipeline.PopFailsOnlyAtTheEnd | examples/cpp11/executors/pipeline.cpp:167-179 | pop returns false only when everything upstream has finished and the queue is drained. |
| Pipeline.OutputIsDetermined | examples/cpp11/executors/pipeline.cpp:198-247 | The output is always a numbered prefix of what the stages make of the input, and all of it when the writer returns. |
| Pipeline.NoMissedNotification | examples/cpp11/executors/pipeline.cpp:137-179 | No consumer is blocked on a queue that holds a line or is stopped. |
| Pipeline.StuckMeansStopped | examples/cpp11/executors/pipeline.cpp:198-247 | If no stage can move, every queue is stopped. |
| Pipeline.NeverDeadlocks | examples/cpp11/executors/pipeline.cpp:198-247 | Until the writer has returned, some stage can do something useful. |
| Pipeline.ProductiveStepsRunOut | examples/cpp11/executors/pipeline.cpp:198-291 | Every productive step lowers the remaining work. |
| Pipeline.ProductiveStepsAreBounded | examples/cpp11/executors/pipeline.cpp:198-291 | The productive steps of every run so far and the work left are together at most the work at its start. |
| Pipeline.FilterThenUpper | examples/cpp11/executors/pipeline.cpp:265-283 | filter and upper turn the input into its lines longer than 5, in order, each small letter replaced by the capital in the same place of the alphabet and every other character kept. |
| Pipeline.ProgramOutput | examples/cpp11/executors/pipeline.cpp:293-299 | Under every interleaving the j-th line printed is the j-th long input line in upper case, and at the end all of them are printed. |
| SocketStreambufs.Decisive | include/asio/network/basic_socket_streambuf.hpp:326-367 | The first recv that does not merely ask to try again. |
| SocketStreambufs.Taken | include/asio/network/basic_socket_streambuf.hpp:388-421 | How many bytes the send loop gets out: never more than asked, and some exactly when the first decisive send takes some. |
| SocketStreambufs.TakenIsCapacity | include/asio/network/basic_socket_streambuf.hpp:388-421 | The loop gets out exactly what the sends before the first failure take, at most what there is; those that ask to try again cost nothing. |
| SocketStreambufs.SocketStreambuf.constructor | include/asio/network/basic_socket_streambuf.hpp:463-473 | An empty put area and an empty get area behind the putback space. |
| SocketStreambufs.SocketStreambuf.SendAll | include/asio/network/basic_socket_streambuf.hpp:388-421 | Exactly the bytes the outcomes take go out, in order; succeeds exactly when all went out. |
| SocketStreambufs.SocketStreambuf.Overflow | include/asio/network/basic_socket_streambuf.hpp:370-437 | On success the put area is on the wire and holds at most the new character; on failure the put area stays, so the stream is intact if and only if nothing was sent. |
| SocketStreambufs.SocketStreambuf.Put | include/asio/network/basic_socket_streambuf.hpp:370-437 | Stores the character without the network while there is room, else overflows. |
| SocketStreambufs.SocketStreambuf.Sync | include/asio/network/basic_socket_streambuf.hpp:439-442 | On success the put area is empty and its bytes are on the wire. |
| SocketStreambufs.SocketStreambuf.Setbuf | include/asio/network/basic_socket_streambuf.hpp:444-455 | Switches to unbuffered mode exactly for a null buffer of size 0 while nothing is pending, and loses nothing; else changes nothing. |
| SocketStreambufs.SocketStreambuf.Underflow | include/asio/network/basic_socket_streambuf.hpp:321-368 | Refills an empty get area behind the 8 putback bytes, which stay; fails exactly when the get area is not empty or no bytes come. |
| SocketStreambufs.SocketStreambuf.Get | include/asio/network/basic_socket_streambuf.hpp:321-368 | Characters consumed followed by the get area stay equal to the bytes received. |
| SocketStreambufs.OutputSession | include/asio/network/basic_socket_streambuf.hpp:370-455 | After any puts, flushes and mode switches that succeed, a final flush has every character on the wire, in order; partial sends do not matter. |
| SocketStreambufs.ResentByte | include/asio/network/basic_socket_streambuf.hpp:388-421 | A flush that fails behind its first byte makes the next flush send that byte again. |
| ChatMessages.Decode | examples/cpp11/chat/chat_message.hpp:66-77 | An accepted body length never exceeds 512, for arbitrary header bytes. |
| ChatMessages.HeaderIsNumeral | examples/cpp11/chat/chat_message.hpp:79-84 | A header is the decimal numeral of the length, right-aligned in four characters. |
| ChatMessages.AtoiReads | examples/cpp11/chat/chat_message.hpp:66-70 | White space, a sign, digits and a rest: atoi yields the number of the digits, negated after a minus sign. |
| ChatMessages.DecodeExactly | examples/cpp11/chat/chat_message.hpp:66-77 | Whatever the header bytes: the number before the first NUL is accepted as it is if it is at most 512 and not negative, and refused otherwise. |
| ChatMessages.EveryHeaderHasParts | examples/cpp11/chat/chat_message.hpp:66-77 | Every header has the parts that the previous statement speaks of. |
| ChatMessages.HeaderRoundTrip | examples/cpp11/chat/chat_message.hpp:66-84 | Every body length from 0 to 512 survives encode_header and decode_header. |
| ChatMessages.ChatMessage.SetBodyLength | examples/cpp11/chat/chat_message.hpp:59-64 | Clamps the length at 512. |
| ChatMessages.ChatMessage.EncodeHeader | examples/cpp11/chat/chat_message.hpp:79-84 | Writes the header and leaves the body alone. |
| ChatMessages.ChatMessage.DecodeHeader | examples/cpp11/chat/chat_message.hpp:66-77 | Accepts exactly the headers that decode; the length is 0 otherwise. |
| ChatMessages.ReadLoop | examples/cpp11/chat/chat_server.cpp:107-142 | Every body the read loop yields has at most 512 bytes. |
| ChatMessages.ReadOne | examples/cpp11/chat/chat_server.cpp:107-142 | One framed message is read off the front of any stream. |
| ChatMessages.FramingRoundTrip | examples/cpp11/chat/chat_server.cpp:107-142 | Reading the concatenated encodings yields the messages, whatever follows them. |
| ChatMessages.FramingIsExact | examples/cpp11/chat/chat_server.cpp:107-142 | Reading the encodings of a list of messages yields exactly the list. |
| ChatMessages.ReadLoopStopsLate | examples/cpp11/chat/chat_server.cpp:107-142 | From any stream the loop yields the bodies of all frames up to the first header that is refused or incomplete. |
| ChatRooms.ChatRoom.Join | examples/cpp11/chat/chat_server.cpp:49-54 | A new session gets the recent messages in order, with one write started if there are any. |
| ChatRooms.ChatRoom.Remember | examples/cpp11/chat/chat_server.cpp:63-65 | Keeps the last 100 messages. |
| ChatRooms.ChatRoom.DeliverToParticipants | examples/cpp11/chat/chat_server.cpp:67-68 | Every joined session, and no other, gets the message. |
| ChatRooms.ChatRoom.Deliver | examples/cpp11/chat/chat_server.cpp:61-69 | Remembers the message and delivers it to every participant. |
| ChatRooms.ChatRoom.WriteHandler | examples/cpp11/chat/chat_server.cpp:150-164 | On success takes the front message out and goes on with the next; on an error leaves the room with its queue untouched; other sessions stay as they are. |
| ChatRooms.ChatRoom.Leave | examples/cpp11/chat/chat_server.cpp:56-59 | Takes the session out of the room and changes nothing else. |
| ChatRooms.DeliverAllIs | examples/cpp11/chat/chat_server.cpp:49-54 | Delivering a list to a new session queues exactly that list and starts one write. |
| ChatRooms.EnterOk | examples/cpp11/chat/chat_server.cpp:90-94 | Joining keeps the session invariant. |
| ChatRooms.SayOk | examples/cpp11/chat/chat_server.cpp:96-104 | A delivery keeps the session invariant. |
| ChatRooms.WrittenOk | examples/cpp11/chat/chat_server.cpp:144-165 | A write completion keeps the session invariant. |
| ChatRooms.LeaveOk | examples/cpp11/chat/chat_server.cpp:56-59 | Leaving keeps the session invariant. |
| ChatRooms.KeepInv | examples/cpp11/chat/chat_server.cpp:49-165 | Every event keeps the invariant of the room. |
| ChatRooms.RunInv | examples/cpp11/chat/chat_server.cpp:49-165 | The invariant holds in every state of every run. |
| ChatRooms.RecentIsTheTail | examples/cpp11/chat/chat_server.cpp:61-65 | The recent list is the last min(100, n) of the n delivered messages. |
| ChatRooms.SessionGetsItsDue | examples/cpp11/chat/chat_server.cpp:96-165 | Sent plus queued messages of a session are the recent list at its join and everything delivered until it left; a write is outstanding exactly when something is queued and no write failed. |
| ChatRooms.WriteEnds | examples/cpp11/chat/chat_server.cpp:150-164 | What a completed and a failed write do to their session, and that they do nothing else, in every run. |
| ChatRooms.ReadEnds | examples/cpp11/chat/chat_server.cpp:107-142 | A failed read only takes its session out of the room. |
| ChatRooms.LeavesExactly | examples/cpp11/chat/chat_server.cpp:112-164 | A session is in the room until a read of its own or a write to it fails. |
| ChatRooms.SayAndEnter | examples/cpp11/chat/chat_server.cpp:49-69 | Every message said is delivered, and nothing else; every session that starts joins with the recent messages queued. |
| ChatRooms.SentCountsSuccesses | examples/cpp11/chat/chat_server.cpp:150-158 | A session has sent as many messages as writes to it have succeeded. |
| ChatRooms.FailedForGood | examples/cpp11/chat/chat_server.cpp:150-164 | After its first failed write a session is out of the room and neither sends nor receives anything. |
| AddressesV6.ValueInjective | include/asio/ip/address_v6_iterator.hpp:93-132 | Addresses of one length with the same big-endian value are equal. |
| AddressesV6.IncAddsOne | include/asio/ip/address_v6_iterator.hpp:93-107 | Incrementing adds 1 modulo 256^length. |
| AddressesV6.IncDecInverse | include/asio/ip/address_v6_iterator.hpp:93-132 | Increment and decrement undo each other. |
| AddressesV6.Increment | include/asio/ip/address_v6_iterator.hpp:93-107 | The in-place carry loop computes the increment. |
| AddressesV6.Decrement | include/asio/ip/address_v6_iterator.hpp:118-132 | The in-place borrow loop computes the decrement. |
| AddressesV6.AddressCount | include/asio/ip/address_v6_iterator.hpp:95-95 | There are 2^128 addresses. |
| AddressesV6.StepsAdd | include/asio/ip/address_v6_iterator.hpp:93-107 | k increments add k modulo 2^128. |
| AddressesV6.IterationEnds | include/asio/ip/address_v6_range.hpp:77-87 | With equal scopes exactly (end - begin) mod 2^128 increments lead from begin to end, and no fewer. |
| AddressesV6.IterationEndsIff | include/asio/ip/address_v6_range.hpp:77-87 | Increments reach end if and only if begin and end have the same scope. |
| AddressesV6.VisitedForever | include/asio/ip/address_v6_range.hpp:77-87 | If begin and end differ in scope, the iteration never ends and visits every address of the scope of begin. |
| AddressesV6.VisitedIff | include/asio/ip/address_v6_range.hpp:77-87 | Which addresses the iteration visits, for every range: those of the scope of begin from begin up to end, around the wrap if end is before begin, and all of them if end has a foreign scope. |
| AddressesV6.FindIff | include/asio/ip/address_v6_range.hpp:95-99 | What find finds, for every range: the addresses not before begin and before end, by bytes and then by scope. |
| AddressesV6.FindTellsVisited | include/asio/ip/address_v6_range.hpp:95-99 | If begin and end have one scope and begin is not after end, an address is visited if and only if find succeeds and the scope is that of the range. |
| AddressesV6.FindMissesWrappedRange | include/asio/ip/address_v6_range.hpp:95-99 | In a range that wraps find fails for every address, although the first address is visited. |
| AddressesV6.FindIsExact | include/asio/ip/address_v6_range.hpp:95-99 | With equal scopes of begin and end, find together with a test of the scope agrees with the iteration on all addresses if and only if begin is not after end. |
| AddressesV6.FindAgreesExactly | include/asio/ip/address_v6_range.hpp:95-99 | For every address and every range, the exact condition under which find agrees with the iteration. |
| AddressesV6.FindAgreesOnlyOnEmpty | include/asio/ip/address_v6_range.hpp:95-99 | find agrees with the iteration on all addresses if and only if the range is empty, whatever the scopes. |
| AddressesV6.EmptyVisitsNothing | include/asio/ip/address_v6_range.hpp:89-93 | empty() holds exactly when nothing is visited, whatever the scopes; with equal scopes exactly when the distance is 0. |
| AddressesV6.MemLessIsLess | include/asio/ip/impl/address_v6.ipp:182-192 | Comparing the bytes compares the numbers. |

## Left out

- Exceptions: a function that throws out of `execute`, a constructor that fails half way.
- The thread pool behind the fork/join pool, and its `join` in the destructor.
- Shared ownership and the lifetime of memory: shared pointers, allocation, capacity growth, iterator invalidation.
- fork_join_sort works on one shared array that all tasks write at any time; it is a step system on sequence values, not a method on an array. Other users of the pool beside one sort are not modelled.
- The wait loops of pool workers, joins and queue consumers are steps of a run, not loops in a method.
- DynamicBuffer stands for both dynamic_string_buffer and dynamic_vector_buffer, whose fields and calls are the same; the bytes of `Elem` types other than plain bytes are not modelled.
- size_t wrap-around and the ptrdiff_t range of iterators.
- Socket, resolver, timer, strand, io_context and executor internals: their contracts are assumptions.
- `async_read`, `async_read_until`, `async_write`: composed operations enter as single events.
- TcpSession.ReadHandler: returns the line that goes to the channel; its delivery to the other subscribers is an event of their own runs.
- The channel's set of subscribers, the UDP broadcaster and the accept loops of the servers.
- Stream buffer `connect`, `close`, the move operations, putback and error codes.
- IPv6 parsing, printing, networks and the IPv4 ranges.
- buffer_sequence_adapter, const and mutable conversions, buffer debugging: they copy fields between representations and keep no state of their own.
- examples/cpp11/executors/actor.cpp, whose deregister_handler compares another type id than handlers report; the examples/cpp14 version is modelled.
- The examples/cpp14 copies of fork_join and pipeline, priority_scheduler, log_client, log_server, prioritised handlers, and the echo, SSL, daemon, multicast, coroutine and iostream examples.
