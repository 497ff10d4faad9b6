# Rhino kernel objects and the yloop tables, in Dafny

This project models the bookkeeping core of the Rhino real-time kernel of
AliOS-things, and the reader and timeout tables of its yloop event loop.
It proves properties of that model in Dafny. The configuration is a
single CPU, and every kernel entry point is treated as one atomic step,
since each runs inside a critical section.

- **Kernel state.** `KState.Kernel` is a class holding the kernel globals
  of `k_obj.c`:
  - the task control blocks, as a map from task handles;
  - the semaphores, queues and mutexes, as a map from object handles, all
    sharing a `blk_obj_t`-like header;
  - the ready queue (`KSched.ReadyQueue`), with one ring per priority as
    an array of sequences, the priority bitmap and `highest_pri`;
  - the scheduler lock counter, the active task and the idle task.

  A pointer is a handle, and `NULL` is `Option.None`. The invariant
  `Kernel.Valid` ties these together:
  - the ready rings hold exactly the ready tasks, at their priorities;
  - every wait list is ordered by priority and holds exactly the tasks
    pending on it;
  - every mutex in a task's held list is owned by that task;
  - the idle task is always ready at the idle priority.
- **Kernel operations.** Task lifecycle (`KTask`), ready queue and
  scheduler lock (`KSched`, `KState`), priority inheritance (`KPrio`),
  mutex (`KMutex`), counting semaphore (`KSem`) and message queue
  (`KQueue`) are methods on that state. The wait-list helpers of
  `k_pend.c` are in `KPend`. `k_pend.c` is not part of this model: its
  helpers are modelled at their call sites, with the contracts those call
  sites rely on.
- **Timers.** `KTimer.TimerService` models:
  - the software timers of `k_timer.c`, over 64-bit unsigned ticks with
    wrap-around. Every insertion goes where `timer_list_pri_insert` puts
    it by `match - g_timer_count`, and lemmas show that each command keeps
    the list sorted at a fixed tick count (`KTimer.CmdKeepsSorted`).
    Sortedness is not part of `TimerService.Valid`, because a new
    `g_timer_count` past a due timer's `match` wraps that timer's key;
  - the command queue between the API and the timer task;
  - the command processor;
  - the expiry pass, specified by the ghost function `KTimer.Walk`.
- **yloop.** `YLoop.Loop` models the reader array, the ascending timeout
  list, one iteration of `aos_loop_run` and the whole run loop.
  - The results of polling and the clock are parameters
    (`YLoop.PollStep`).
  - Callbacks are recorded as events instead of being called.

Error codes follow `kstat_t` (`KObj.Status`). Configuration constants use
the Rhino defaults:

| constant | value |
|---|---|
| `RHINO_CONFIG_PRI_MAX` | 62 |
| `RHINO_CONFIG_TIME_SLICE_DEFAULT` | 50 |
| `SCHED_MAX_LOCK_COUNT` | 200 |
| `RHINO_CONFIG_TASK_INFO_NUM` | 2 |
| suspend and mutex nesting | `uint8_t` |
| semaphore count | `uint32_t` |
| `sys_time_t` | 64-bit |
| `MAX_TIMER_TICKS` | 2^63 - 1 |

## Model

| member | source | states |
|---|---|---|
| KObj.Max | AliOS-things/kernel/rhino/core/k_sem.c:189-193 | the peak update: the larger of the two, and one of them |
| KObj.IndexOf | AliOS-things/kernel/yloop/yloop.c:165-169 | the first position holding x |
| KObj.Remove | AliOS-things/kernel/rhino/core/k_sched.c:288-301 | klist_rm on a ring modelled as a sequence: one element fewer when present, the same ring when absent, no other member lost, and no duplicates introduced |
| KSched.FindFirstBit | AliOS-things/kernel/rhino/core/k_sched.c:304-322 | krhino_find_first_bit: the lowest set priority, or -1 exactly when no bit is set |
| KSched.HighestIs | AliOS-things/kernel/rhino/core/k_sched.c:304-322 | `highest_pri` is the least set bit, or PRI_MAX for an empty bitmap |
| KSched.HighestAdd | AliOS-things/kernel/rhino/core/k_sched.c:180-189 | setting a bit makes `highest_pri` the minimum of the old value and the new priority |
| KSched.HighestRemove | AliOS-things/kernel/rhino/core/k_sched.c:304-322 | clearing a bit other than the highest leaves `highest_pri` unchanged |
| KSched.Rotate | AliOS-things/kernel/rhino/core/k_sched.c:325-328 | moving the head to the tail: the old head last, everything else moved up by one |
| KSched.RotateNIs | AliOS-things/kernel/rhino/core/k_sched.c:325-328 | n rotations are the split-and-swap `s[n..] + s[..n]` |
| KSched.RotateFull | AliOS-things/kernel/rhino/core/k_sched.c:325-328 | rotating a ring of n tasks n times restores it |
| KSched.RotateMembers | AliOS-things/kernel/rhino/core/k_sched.c:325-328 | rotation keeps the members of a ring and its lack of duplicates |
| KSched.ReadyQueue.constructor | AliOS-things/kernel/rhino/core/k_sched.c:169-178 | an empty ready queue: all rings empty, no bit set, `highest_pri == PRI_MAX` |
| KSched.ReadyQueue.RunqueueInit | AliOS-things/kernel/rhino/core/k_sched.c:169-178 | every ring empty and `highest_pri == PRI_MAX`; the bitmap is not touched |
| KSched.ReadyQueue.ReadyListInit | AliOS-things/kernel/rhino/core/k_sched.c:180-189 | the ring becomes the single task, its bit is set, and `highest_pri` is lowered to the minimum |
| KSched.ReadyQueue.AddTail | AliOS-things/kernel/rhino/core/k_sched.c:196-204 | the task is appended last in its ring; its bit is set; `highest_pri` becomes the minimum; other rings are untouched |
| KSched.ReadyQueue.AddHead | AliOS-things/kernel/rhino/core/k_sched.c:206-215 | the task becomes the new head of its ring; bit and `highest_pri` as for add-tail |
| KSched.ReadyQueue.Rm | AliOS-things/kernel/rhino/core/k_sched.c:288-323 | the task leaves its ring; the bit is cleared exactly when the ring had one task; the invariant `highest_pri == min(bitmap)` is kept unless the bitmap becomes empty, which is the fatal case |
| KSched.ReadyQueue.ClearBit | AliOS-things/kernel/rhino/core/k_sched.c:304-322 | clears the bit; a non-empty bitmap gives the new least bit as `highest_pri` |
| KSched.ReadyQueue.HeadToTail | AliOS-things/kernel/rhino/core/k_sched.c:325-328 | the ring is rotated by one; nothing else changes |
| KSched.ReadyQueue.PreferredReadyTask | AliOS-things/kernel/rhino/core/k_sched.c:372-377 | the head of the `highest_pri` ring, and every ring of higher priority is empty |
| KState.NewTcb | AliOS-things/kernel/rhino/core/k_task.c:49-64 | a new TCB: priority and base priority as requested; `time_total` is ticks if positive, else the default, with `time_slice == time_total`; ready on autorun, else suspended |
| KState.IdleListed | AliOS-things/kernel/rhino/core/k_sched.c:304-322 | the idle task is always in the idle ring, so ready_list_rm never empties the bitmap |
| KState.RingsPermuted | AliOS-things/kernel/rhino/core/k_sched.c:325-328 | reordering one ring keeps the ready-set invariant |
| KState.Kernel.constructor | AliOS-things/kernel/rhino/core/k_obj.c:10-23 | a started kernel whose only task is the ready idle task, which runs; no objects; scheduler unlocked |
| KState.ReadyListAdd | AliOS-things/kernel/rhino/core/k_sched.c:278-286 | tail of the ring when the task has the running task's priority, head otherwise |
| KState.CoreSched | AliOS-things/kernel/rhino/core/k_sched.c:120-166 | with the scheduler unlocked, the active task becomes the head of the highest non-empty ring, a ready task of highest priority; with it locked, nothing changes |
| KState.SchedDisable | AliOS-things/kernel/rhino/core/k_sched.c:33-55 | fails with SCHED_LOCK_COUNT_OVF at SCHED_MAX_LOCK_COUNT, else increments the counter |
| KState.SchedEnable | AliOS-things/kernel/rhino/core/k_sched.c:57-84 | SCHED_ALREADY_ENABLED at 0; otherwise decrements, returning SCHED_DISABLE while still positive, and at 0 a ready task of highest priority runs |
| KState.TimeSliceUpdate | AliOS-things/kernel/rhino/core/k_sched.c:442-493 | round-robin tick: FIFO heads and single-task rings are untouched; otherwise the head's slice decrements, and when it runs out the ring rotates and the slice is reset to `time_total` |
| KState.SpendTick | AliOS-things/kernel/rhino/core/k_sched.c:476-478 | only the task's slice decrements |
| KState.RoundRobin | AliOS-things/kernel/rhino/core/k_sched.c:486-490 | the head's slice is reset to its `time_total` and the ring rotates by one |
| KTask.SuspendedTcb | AliOS-things/kernel/rhino/core/k_task.c:328-356 | the task is suspended with a nesting count one deeper; a pending task stays pending and a sleeping task becomes SLEEP_SUSPENDED; no other field changes |
| KTask.ResumedTcb | AliOS-things/kernel/rhino/core/k_task.c:384-415 | the count decrements; the state is kept while the count stays positive; pending stays pending; nothing else changes |
| KTask.SuspendN | AliOS-things/kernel/rhino/core/k_task.c:328-356 | n suspends give a suspended task with count depth+n |
| KTask.ResumeUndoesSuspend | AliOS-things/kernel/rhino/core/k_task.c:328-415 | n suspends followed by n resumes restore the TCB exactly |
| KTask.StillSuspended | AliOS-things/kernel/rhino/core/k_task.c:384-415 | after n suspends, fewer than n resumes leave the task suspended with the remaining count |
| KTask.CreateStatus | AliOS-things/kernel/rhino/core/k_task.c:7-42 | creation succeeds exactly when the pointers are present, the stack size is positive and the priority is below PRI_MAX and not idle; INV_STACK_SIZE, BEYOND_MAX_PRI and IDLE_TASK_EXIST in that order |
| KTask.TaskCreate | AliOS-things/kernel/rhino/core/k_task.c:7-127 | on failure nothing changes; on success the new TCB is NewTcb, and an autorun task joins the tail of its ring and the scheduler runs |
| KTask.SuspendStatus | AliOS-things/kernel/rhino/core/k_task.c:302-376 | suspend succeeds exactly for a non-idle, suspendable task that is not the running task under a scheduler lock |
| KTask.TaskSuspend | AliOS-things/kernel/rhino/core/k_task.c:302-376 | NULL gives NULL_PTR; refusals change nothing; success gives SuspendedTcb, removes a ready task from its ring, and reschedules |
| KTask.SuspendOne | AliOS-things/kernel/rhino/core/k_task.c:328-356 | the state switch of task_suspend, with the ring update for a ready task |
| KTask.SuspendReady | AliOS-things/kernel/rhino/core/k_task.c:330-334 | a ready task leaves its ring and becomes SUSPENDED with count 1 |
| KTask.ResumeStatus | AliOS-things/kernel/rhino/core/k_task.c:384-415 | resume succeeds exactly for a suspended task; RDY, SLEEP and PEND give TASK_NOT_SUSPENDED |
| KTask.TaskResume | AliOS-things/kernel/rhino/core/k_task.c:378-434 | refusals change nothing; success gives ResumedTcb, and a task that becomes ready joins its ring by ready_list_add; the scheduler runs |
| KTask.ResumeOne | AliOS-things/kernel/rhino/core/k_task.c:384-415 | the state switch of task_resume with its ring update |
| KTask.ResumeReady | AliOS-things/kernel/rhino/core/k_task.c:392-398 | a task leaving SUSPENDED at count 0 joins its ring by ready_list_add |
| KTask.TaskYield | AliOS-things/kernel/rhino/core/k_task.c:276-288 | the running task's ring rotates by one; with the scheduler unlocked, the next task of that ring runs when the yielding task was of highest priority |
| KTask.PriChangeRefusal | AliOS-things/kernel/rhino/core/k_task.c:585-597 | refused exactly for an idle-priority task or target (PRI_CHG_NOT_ALLOWED) or a deleted task (INV_TASK_STATE) |
| KTask.ChangePriority | AliOS-things/kernel/rhino/core/k_task.c:574-623 | refusals change nothing; otherwise `b_prio` becomes the request and a non-pending task takes its `mutex_pri_limit`; only priorities and wait-list order change; the old priority is returned |
| KTask.ApplyPriority | AliOS-things/kernel/rhino/core/k_task.c:604-622 | NewPriority: `b_prio` becomes the request; nothing else changes when the priority already equals `mutex_pri_limit`; otherwise a task being created gives INV_TASK_STATE through k_err_proc, a ready, sleeping or suspended task takes the limit; throughout only priorities and wait-list order change; with the scheduler unlocked a ready task of highest priority runs |
| KTask.PriorityToLimit | AliOS-things/kernel/rhino/core/k_task.c:606-611 | `b_prio` set and `task_pri_change` to `mutex_pri_limit`: the state NewPriority describes, keeping the kernel invariant |
| KTask.SetBasePri | AliOS-things/kernel/rhino/core/k_task.c:606 | only `b_prio` changes |
| KTask.SliceOf | AliOS-things/kernel/rhino/core/k_task.c:940-948 | a slice of 0 gives the default; any other slice is kept |
| KTask.TimeSliceSet | AliOS-things/kernel/rhino/core/k_task.c:930-953 | NULL gives NULL_PTR; otherwise `time_total` and `time_slice` both become SliceOf(slice) |
| KTask.SchedPolicySet | AliOS-things/kernel/rhino/core/k_task.c:955-973 | a policy other than FIFO or RR gives INV_SCHED_WAY and changes nothing; otherwise only the policy changes |
| KTask.SchedPolicyGet | AliOS-things/kernel/rhino/core/k_task.c:975-990 | a NULL task or out pointer gives NULL_PTR; otherwise returns the task's policy, which is FIFO or RR |
| KTask.TaskInfoSet | AliOS-things/kernel/rhino/core/k_task.c:994-1009 | idx ≥ TASK_INFO_NUM gives INV_PARAM and changes nothing; otherwise only slot idx is written |
| KTask.TaskInfoGet | AliOS-things/kernel/rhino/core/k_task.c:1011-1023 | a NULL task or out pointer gives NULL_PTR, then INV_PARAM for idx ≥ TASK_INFO_NUM; otherwise returns what slot idx holds |
| KPrio.MinHeadPri | AliOS-things/kernel/rhino/core/k_mutex.c:186-211 | the min-fold of `mutex_pri_limit`: never above pri |
| KPrio.MinHeadPriIs | AliOS-things/kernel/rhino/core/k_mutex.c:186-211 | the fold is at most every head waiter's priority, and equals pri or one of them: it is the minimum |
| KPrio.Without | AliOS-things/kernel/rhino/core/k_mutex.c:222-236 | unlinking `mutex_rel`: exactly the other members remain, without duplicates |
| KPrio.WithoutSnoc | AliOS-things/kernel/rhino/core/k_mutex.c:222-236 | unlinking distributes over appending one mutex |
| KPrio.WithoutAbsent | AliOS-things/kernel/rhino/core/k_mutex.c:222-236 | unlinking nothing, or an absent mutex, changes nothing |
| KPrio.PushThenUnlink | AliOS-things/kernel/rhino/core/k_mutex.c:316-317 | pushing a mutex on the held list and then unlinking it restores the list |
| KPrio.MutexPriLimit | AliOS-things/kernel/rhino/core/k_mutex.c:186-211 | the loop computes MinHeadPri of the held list and pri |
| KPrio.MutexPriLook | AliOS-things/kernel/rhino/core/k_mutex.c:213-250 | unlinks `mutex_rel` from the held list and returns the min of `b_prio` and the remaining head-waiter priorities |
| KPrio.LookList | AliOS-things/kernel/rhino/core/k_mutex.c:223-247 | the walk over the held list returns that list with `mutex_rel` dropped and the lowest number among `b_prio` and the first waiters' priorities of the mutexes kept |
| KPrio.MinHeadPriFrame | AliOS-things/kernel/rhino/core/k_mutex.c:186-211 | the fold depends on task priorities only |
| KPrio.PriStep | AliOS-things/kernel/rhino/core/k_task.c:507-568 | one pass of the do-while: nothing when the priority is already right; INV_TASK_STATE via k_err_proc for a task being created or deleted; a ready task moves rings; a sleeping or suspended task changes priority in place; a pending task is reordered in its wait list and names the mutex owner to visit next |
| KPrio.ReadyPrio | AliOS-things/kernel/rhino/core/k_task.c:510-521 | ready task: out of the old ring, into the new one at the head if running, else at the tail |
| KPrio.SetPrio | AliOS-things/kernel/rhino/core/k_task.c:522-528 | sleeping or suspended task: only its priority changes |
| KPrio.PendPriStep | AliOS-things/kernel/rhino/core/k_task.c:529-561 | pending task: new priority, wait list reordered, next owner chosen by the three-way rule |
| KPrio.ChainStep | AliOS-things/kernel/rhino/core/k_task.c:535-559 | the choice of the next task to visit along the mutex chain |
| KPrio.TaskPriChange | AliOS-things/kernel/rhino/core/k_task.c:501-572 | the whole walk: the first step's exact outcome for non-pending tasks; throughout, only priorities and wait-list order change and the invariant holds |
| KPrio.PriChain | AliOS-things/kernel/rhino/core/k_task.c:507-569 | the loop: only priorities and wait-list order change, and errors are reported through k_err_proc |
| KPrio.PrioOnlyTrans | AliOS-things/kernel/rhino/core/k_task.c:507-569 | priority-only changes compose across loop passes |
| KPrio.OrderOnlyTrans | AliOS-things/kernel/rhino/core/k_task.c:507-569 | reorder-only changes compose across loop passes |
| KPend.PendPos | AliOS-things/kernel/rhino/core/k_sem.c:278 | the BLK_POLICY_PRI insertion point: after every waiter of equal or higher priority, before the first of lower |
| KPend.PendInsert | AliOS-things/kernel/rhino/core/k_sem.c:278 | the waiter joins the list once; nobody else joins or leaves |
| KPend.InsertOrdered | AliOS-things/kernel/rhino/core/k_sem.c:278 | the insertion keeps the wait list in priority order |
| KPend.RemoveOrdered | AliOS-things/kernel/rhino/core/k_sem.c:210-217 | removing a waiter keeps the priority order |
| KPend.PendToBlkObj | AliOS-things/kernel/rhino/core/k_mutex.c:346 | pend_to_blk_obj: the running task leaves its ring, becomes PEND on the object, and is inserted in priority order |
| KPend.EndedTcb | AliOS-things/kernel/rhino/core/k_sem.c:210-217 | an ended waiter: PEND becomes ready, PEND_SUSPENDED becomes SUSPENDED, no blocking object, block state recorded |
| KPend.PendTaskEnd | AliOS-things/kernel/rhino/core/k_sem.c:210-217 | pend_task_wakeup and pend_task_rm: the waiter leaves the wait list; a PEND task joins its ring by ready_list_add |
| KPend.PendListReorder | AliOS-things/kernel/rhino/core/k_task.c:531-533 | pend_list_reorder: new priority and the waiter re-inserted in order |
| KPend.Retype | AliOS-things/kernel/rhino/core/k_sem.c:67 | deletion's first step: only the object type becomes NONE |
| KPend.EndAll | AliOS-things/kernel/rhino/core/k_sem.c:70-72 | ending every waiter of a list keeps the task table's keys |
| KPend.EndAllIs | AliOS-things/kernel/rhino/core/k_sem.c:70-72 | each listed waiter is ended; every other task is untouched |
| KPend.PendEndAll | AliOS-things/kernel/rhino/core/k_sem.c:70-72 | the while-loop draining a wait list: the list ends empty and exactly its waiters are ended |
| KPend.EndNext | AliOS-things/kernel/rhino/core/k_sem.c:70-72 | one iteration of the drain ends the head waiter |
| KPend.EndAllSnoc | AliOS-things/kernel/rhino/core/k_sem.c:70-72 | ending one more waiter extends the prefix outcome |
| KPend.EndFirst | AliOS-things/kernel/rhino/core/k_sem.c:210-217 | the head waiter is ended and leaves the list; nothing else changes |
| KMutex.MutexCreate | AliOS-things/kernel/rhino/core/k_mutex.c:7-38 | a NULL mutex or name gives NULL_PTR and changes nothing; otherwise a new static mutex with no owner, nesting 0 and an empty wait list |
| KMutex.MutexLock | AliOS-things/kernel/rhino/core/k_mutex.c:268-360 | NULL gives NULL_PTR; otherwise the status is LockStatus and the state change is LockOutcome: take, nest, overflow, refusal with nothing changed, or block as in BlockedOutcome |
| KMutex.LockObj | AliOS-things/kernel/rhino/core/k_mutex.c:285-347 | the guard chain of the lock: LockStatus and LockOutcome for each branch |
| KMutex.Nest | AliOS-things/kernel/rhino/core/k_mutex.c:292-306 | the owner locking again: nesting one deeper with OWNER_NESTED, or at the maximum MUTEX_NESTED_OVF reported through k_err_proc with the mutex unchanged |
| KMutex.LockFree | AliOS-things/kernel/rhino/core/k_mutex.c:309-321 | a free mutex is taken by the running task with nesting 1, heads its held list, and nothing else changes (the Success case of LockOutcome) |
| KMutex.Own | AliOS-things/kernel/rhino/core/k_mutex.c:310-321 | the caller becomes owner with nesting 1, and the mutex is pushed at the head of its held list |
| KMutex.LockBlock | AliOS-things/kernel/rhino/core/k_mutex.c:336-349 | BlockedOutcome: apart from priorities the caller has become PEND on the mutex and nothing else about a task differs; the caller has joined the wait list and wait lists keep their members otherwise; a ready, sleeping or suspended owner takes the caller's priority when that is higher, a never-started or deleted one keeps its own and INV_TASK_STATE is reported; a ready task of highest priority runs |
| KMutex.WaitOn | AliOS-things/kernel/rhino/core/k_mutex.c:345-349 | the caller becomes PEND on the mutex and is inserted in its wait list in priority order; the error log is untouched; a ready task of highest priority runs |
| KMutex.InheritThenPend | AliOS-things/kernel/rhino/core/k_mutex.c:336-346 | the owner's inheritance followed by the caller's pend gives BlockedOutcome |
| KMutex.Inherit | AliOS-things/kernel/rhino/core/k_mutex.c:338-343 | InheritOutcome: only priorities and wait-list order change; a ready, sleeping or suspended owner takes pri when numerically smaller; a never-started or deleted owner keeps its own and INV_TASK_STATE is reported |
| KMutex.MutexUnlock | AliOS-things/kernel/rhino/core/k_mutex.c:362-432 | NULL gives NULL_PTR; otherwise the status is UnlockStatus and the state change is UnlockOutcome: a non-owner is refused with nothing changed; nesting decrements with OWNER_NESTED while positive; the final unlock restores the owner's priority and frees the mutex or hands it to the first waiter |
| KMutex.UnlockObj | AliOS-things/kernel/rhino/core/k_mutex.c:384-427 | the guard chain of the unlock |
| KMutex.UnlockLast | AliOS-things/kernel/rhino/core/k_mutex.c:400-430 | the final unlock: release, then free or hand over, then reschedule |
| KMutex.ReleaseFree | AliOS-things/kernel/rhino/core/k_mutex.c:400-413 | with no waiter, the running task drops the mutex and falls back to its released priority, and the mutex is left without owner |
| KMutex.ReleaseToWaiter | AliOS-things/kernel/rhino/core/k_mutex.c:400-431 | with waiters, the first one is woken, owns the mutex with nesting 1 and heads its held list, and, with the scheduler unlocked, the highest ready task runs |
| KMutex.ReleaseThenHand | AliOS-things/kernel/rhino/core/k_mutex.c:400-427 | `mutex_release` by the running task followed by the hand-over to the first waiter, before the reschedule: the running task drops the mutex and takes ReleasedPri, the first waiter is woken and heads its held list as owner with nesting 1, and the error log is unchanged |
| KMutex.ReleaseRunning | AliOS-things/kernel/rhino/core/k_mutex.c:40-53 | the mutex leaves the running task's held list, and its priority becomes the `mutex_pri_look` value |
| KMutex.ReadyPri | AliOS-things/kernel/rhino/core/k_mutex.c:46-48 | task_pri_change on a ready task: it takes the given priority, and no object or error log changes |
| KMutex.ReleasedPriIs | AliOS-things/kernel/rhino/core/k_mutex.c:213-250 | the released priority is the fold over the remaining held mutexes, below PRI_MAX |
| KMutex.HandOver | AliOS-things/kernel/rhino/core/k_mutex.c:415-427 | the first waiter is woken, becomes owner with nesting 1, and the mutex joins its held list |
| KMutex.MinHeadPriObjects | AliOS-things/kernel/rhino/core/k_mutex.c:186-211 | the fold over held mutexes is unchanged when only mutexes without waiters change |
| KMutex.LockThenUnlock | AliOS-things/kernel/rhino/core/k_mutex.c:309-321 | locking a free mutex and then unlocking it gives back the objects and error log, with the caller running at its `mutex_pri_look` priority |
| KMutex.MutexDel | AliOS-things/kernel/rhino/core/k_mutex.c:55-103 | NULL_PTR, KOBJ_TYPE_ERR and KOBJ_DEL_ERR change nothing; success gives DelOutcome: the mutex has type NONE and no waiters, and apart from priorities its owner has dropped it from its held list and every waiter has ended its pend with BLK_DEL, nothing else about a task differs; other wait lists keep their members; the owner takes its released priority as in Release; no task holds the mutex; with the scheduler unlocked a ready task of highest priority runs |
| KMutex.DelObj | AliOS-things/kernel/rhino/core/k_mutex.c:76-100 | the deletion after the checks: DelOutcome, no task holds the mutex, and the scheduler runs |
| KMutex.RetireThenEnd | AliOS-things/kernel/rhino/core/k_mutex.c:76-88 | retiring the mutex and then ending its waiters with BLK_DEL gives DelOutcome |
| KMutex.EndAllMembers | AliOS-things/kernel/rhino/core/k_mutex.c:86-88 | ending the waiters of a list depends on who is listed, not on their order |
| KMutex.DeletedWaiters | AliOS-things/kernel/rhino/core/k_mutex.c:86-88 | ending the same waiters in two task tables that differ only in priorities keeps that difference |
| KMutex.OwnerReleasedEnded | AliOS-things/kernel/rhino/core/k_mutex.c:80-88 | ending pends changes no priority, so what mutex_release did to the owner survives the drain |
| KMutex.EndWaiters | AliOS-things/kernel/rhino/core/k_mutex.c:86-88 | every waiter ends with BLK_DEL, as EndAll of the old wait list, which empties; no other object changes |
| KMutex.Retire | AliOS-things/kernel/rhino/core/k_mutex.c:76-84 | retype to NONE, then mutex_release: apart from priorities the owner has only dropped the mutex from its held list; wait lists keep their members; the owner's priority and the error log as in OwnerReleased; no task holds the mutex |
| KMutex.Release | AliOS-things/kernel/rhino/core/k_mutex.c:40-53 | mutex_release: the mutex leaves t's held list and only priorities and wait-list order change otherwise; a ready, sleeping or suspended t takes ReleasedPri; a never-started or deleted t keeps its priority and INV_TASK_STATE is reported when the two differ |
| KSem.SemCreate | AliOS-things/kernel/rhino/core/k_sem.c:8-42 | a NULL semaphore or name gives NULL_PTR and changes nothing; otherwise a new static semaphore with `count == peak_count == initial` and an empty wait list |
| KSem.SemGive | AliOS-things/kernel/rhino/core/k_sem.c:155-229 | the status is GiveStatus; GiveOutcome: with no waiters, SEM_OVF at the maximum with nothing changed, else count+1 with the peak raised; with waiters, the head waiter is woken and the count is unchanged |
| KSem.SemGiveAll | AliOS-things/kernel/rhino/core/k_sem.c:201-208 | as SemGive, but every waiter is woken |
| KSem.GiveObj | AliOS-things/kernel/rhino/core/k_sem.c:165-221 | the guard chain of sem_give |
| KSem.Wake | AliOS-things/kernel/rhino/core/k_sem.c:200-217 | one waiter or all waiters are ended with BLK_FINISH |
| KSem.SemTake | AliOS-things/kernel/rhino/core/k_sem.c:238-291 | the status is TakeStatus; TakeOutcome: count > 0 decrements it; otherwise NO_PEND_WAIT with NO_WAIT or SCHED_DISABLE under a lock, both changing nothing; else the caller blocks; the idle task may call it only where it does not block |
| KSem.TakeObj | AliOS-things/kernel/rhino/core/k_sem.c:250-288 | the guard chain of the take; the idle task may call it only where it does not block |
| KSem.SemCountSet | AliOS-things/kernel/rhino/core/k_sem.c:293-332 | SEM_TASK_WAITING when the count is 0 and waiters exist; otherwise the count is set and the peak raised to at least it |
| KSem.SemCountGet | AliOS-things/kernel/rhino/core/k_sem.c:334-346 | NULL semaphore or out pointer gives NULL_PTR; otherwise returns the count; changes nothing |
| KSem.SemDel | AliOS-things/kernel/rhino/core/k_sem.c:44-82 | KOBJ_TYPE_ERR and KOBJ_DEL_ERR change nothing; success marks the semaphore NONE, empties its wait list, ends every waiter with BLK_DEL and reschedules |
| KSem.DelObj | AliOS-things/kernel/rhino/core/k_sem.c:67-79 | the deletion after the checks |
| KSem.TakeThenGive | AliOS-things/kernel/rhino/core/k_sem.c:258-265 | a successful take followed by a successful give restores the whole state |
| KSem.GiveThenTake | AliOS-things/kernel/rhino/core/k_sem.c:189-193 | give then take with no waiters restores the count, leaving the peak at max(peak, count+1) |
| KQueue.KernelDeliver | AliOS-things/kernel/rhino/core/k_queue.c:8-12 | writing a message into waiters' TCBs keeps the kernel invariant |
| KQueue.DeliveredOne | AliOS-things/kernel/rhino/core/k_queue.c:8-12 | delivery to one waiter writes only its `msg` |
| KQueue.Deliver | AliOS-things/kernel/rhino/core/k_queue.c:224-228 | task_msg_recv for every listed waiter |
| KQueue.QueueCreate | AliOS-things/kernel/rhino/core/k_queue.c:14-57 | a NULL queue, name or buffer gives NULL_PTR and `msg_num == 0` gives INV_PARAM, both changing nothing; otherwise `size = msg_num`, `cur_num = peak_num = 0`, empty buffer and wait list |
| KQueue.QueueBackSend | AliOS-things/kernel/rhino/core/k_queue.c:239-242 | the status is SendStatus; SendOutcome: a full queue gives QUEUE_FULL with nothing changed; with no waiters the message is appended, `cur_num` increments and `peak_num` is raised; with waiters the head waiter gets the message and the buffer is untouched |
| KQueue.QueueAllSend | AliOS-things/kernel/rhino/core/k_queue.c:244-247 | as QueueBackSend, but every waiter gets the message |
| KQueue.SendObj | AliOS-things/kernel/rhino/core/k_queue.c:181-237 | the guard chain of msg_send |
| KQueue.WakeFirst | AliOS-things/kernel/rhino/core/k_queue.c:229-232 | the head waiter gets the message and is ended with BLK_FINISH |
| KQueue.WakeAll | AliOS-things/kernel/rhino/core/k_queue.c:224-228 | every waiter gets the message and is ended |
| KQueue.QueueRecv | AliOS-things/kernel/rhino/core/k_queue.c:249-321 | the status is RecvStatus; RecvOutcome: a non-empty queue returns its oldest message and decrements `cur_num`; an empty one writes NULL and gives NO_PEND_WAIT with NO_WAIT or SCHED_DISABLE under a lock, changing nothing; else the caller blocks; the idle task may call it only where it does not block |
| KQueue.RecvObj | AliOS-things/kernel/rhino/core/k_queue.c:268-300 | the guard chain of the receive; the idle task may call it only where it does not block |
| KQueue.QueueIsFull | AliOS-things/kernel/rhino/core/k_queue.c:323-347 | NULL_PTR, KOBJ_TYPE_ERR, else FULL exactly when `cur_num >= size`; changes nothing |
| KQueue.FullIffSendRefused | AliOS-things/kernel/rhino/core/k_queue.c:201-204 | is_full reports FULL exactly when a send would be refused with QUEUE_FULL |
| KQueue.QueueFlush | AliOS-things/kernel/rhino/core/k_queue.c:349-370 | NULL_PTR and KOBJ_TYPE_ERR change nothing; otherwise the buffer empties and `cur_num` becomes 0, `peak_num` kept |
| KQueue.QueueDel | AliOS-things/kernel/rhino/core/k_queue.c:59-99 | KOBJ_TYPE_ERR and KOBJ_DEL_ERR change nothing; success marks the queue NONE, ends every waiter with BLK_DEL, resets the ring and reschedules |
| KQueue.DelObj | AliOS-things/kernel/rhino/core/k_queue.c:83-96 | the deletion after the checks |
| KQueue.ResetRing | AliOS-things/kernel/rhino/core/k_queue.c:94 | ringbuf_reset empties the buffer |
| KQueue.SendThenRecv | AliOS-things/kernel/rhino/core/k_queue.c:209-283 | FIFO: after a send to a queue without waiters, a receive returns the oldest message, which is the one sent when the queue was empty, and restores `cur_num` |
| KTimer.Sub64 | AliOS-things/kernel/rhino/core/k_timer.c:21 | unsigned 64-bit difference |
| KTimer.Add64 | AliOS-things/kernel/rhino/core/k_timer.c:277 | unsigned 64-bit sum |
| KTimer.Signed64 | AliOS-things/kernel/rhino/core/k_timer.c:241 | the cast to `sys_time_i_t` |
| KTimer.AddThenSub | AliOS-things/kernel/rhino/core/k_timer.c:277-279 | `(count + d) - count == d` under wrap-around, as unsigned and signed values |
| KTimer.InsertPos | AliOS-things/kernel/rhino/core/k_timer.c:19-24 | the insertion point: after every timer with key ≤ val, before the first greater one |
| KTimer.InsertPosIs | AliOS-things/kernel/rhino/core/k_timer.c:19-24 | any position with every earlier key ≤ val and the next key greater is the insertion point: it is unique |
| KTimer.InsertKeepsSorted | AliOS-things/kernel/rhino/core/k_timer.c:8-27 | the sorted insert keeps the list non-decreasing in `match - g_timer_count` |
| KTimer.RemoveKeepsSorted | AliOS-things/kernel/rhino/core/k_timer.c:29-38 | removal keeps the list sorted |
| KTimer.StartedNotExpired | AliOS-things/kernel/rhino/core/k_timer.c:277-283 | a timer started d ticks ahead, with 0 < d < 2^63, has key d and is not expired |
| KTimer.FireShrinks | AliOS-things/kernel/rhino/core/k_timer.c:243-254 | firing removes a timer from the set of expired listed timers, so the expiry walk terminates |
| KTimer.AfterFireShrinks | AliOS-things/kernel/rhino/core/k_timer.c:243-254 | after firing, the list keeps the fired timer exactly when it is periodic, and the expired set shrinks |
| KTimer.FiredFacts | AliOS-things/kernel/rhino/core/k_timer.c:247-254 | a fired periodic timer is relisted `round_ticks` ahead and not expired; a one-shot one is unlisted and DEACTIVE |
| KTimer.RestartedFacts | AliOS-things/kernel/rhino/core/k_timer.c:277-283 | a started timer is ACTIVE and listed, with `remain == init_count == key`, and not expired |
| KTimer.Walk | AliOS-things/kernel/rhino/core/k_timer.c:239-259 | the expiry pass from index i: it fires at all exactly when the timer at i is expired, its first callback is that timer's, and without one nothing changes |
| KTimer.WalkFromStep | AliOS-things/kernel/rhino/core/k_timer.c:243-254 | one firing keeps the service invariant and moves the walk on without changing its outcome |
| KTimer.WalkFacts | AliOS-things/kernel/rhino/core/k_timer.c:239-259 | the expiry pass fires only listed expired timers, each once, with its own argument, leaves each in its fired state, and changes no other timer |
| KTimer.FiredByCons | AliOS-things/kernel/rhino/core/k_timer.c:243-254 | the induction step of WalkFacts |
| KTimer.NotFiredAgain | AliOS-things/kernel/rhino/core/k_timer.c:243-254 | a timer just fired does not fire again later in the same pass |
| KTimer.FiredEachCons | AliOS-things/kernel/rhino/core/k_timer.c:243-254 | the per-callback facts extend to a fired head |
| KTimer.FiredOnceCons | AliOS-things/kernel/rhino/core/k_timer.c:243-254 | a new callback for an unfired timer keeps the callbacks distinct |
| KTimer.FiredOnlyCons | AliOS-things/kernel/rhino/core/k_timer.c:243-254 | timers without a callback stay as they were |
| KTimer.TimerService.constructor | AliOS-things/kernel/rhino/core/k_timer.c:427-436 | ktimer_init: empty timer list and command queue |
| KTimer.TimerService.TimerListPriInsert | AliOS-things/kernel/rhino/core/k_timer.c:8-27 | the timer is inserted at InsertPos of its `remain` |
| KTimer.TimerService.TimerListRm | AliOS-things/kernel/rhino/core/k_timer.c:29-38 | a listed timer leaves the list and is marked unlisted; an unlisted one changes nothing |
| KTimer.TimerService.Send | AliOS-things/kernel/rhino/core/k_timer.c:156 | a full queue refuses the command with BUF_QUEUE_FULL and nothing changes; otherwise the command is appended to the timer queue |
| KTimer.TimerService.TimerCreate | AliOS-things/kernel/rhino/core/k_timer.c:40-90 | the status is CreateStatus: a NULL timer, name or callback gives NULL_PTR, tick counts out of range INV_PARAM, both changing nothing; otherwise the timer is DEACTIVE with `remain == match == 0` and unlisted, and autorun queues a start, or returns BUF_QUEUE_FULL with the timer still created |
| KTimer.TimerService.TimerDynCreate | AliOS-things/kernel/rhino/core/k_timer.c:106-130 | a NULL out pointer gives NULL_PTR and allocation failure NO_MEM; otherwise the status is CreateStatus; any failure changes nothing (the block is freed); success creates the timer as TimerCreate does, marked dynamically allocated |
| KTimer.TimerService.TimerChange | AliOS-things/kernel/rhino/core/k_timer.c:173-198 | a NULL timer gives NULL_PTR with nothing queued; first == 0, first ≥ MAX_TIMER_TICKS or round ≥ MAX_TIMER_TICKS give INV_PARAM with nothing queued; a full queue gives BUF_QUEUE_FULL; otherwise a CHG command with both values is queued |
| KTimer.TimerService.TimerRequest | AliOS-things/kernel/rhino/core/k_timer.c:92-227 | a NULL timer gives NULL_PTR with nothing queued; otherwise start, stop, delete and argument changes queue their command, or get BUF_QUEUE_FULL from a full queue with nothing queued |
| KTimer.TimerService.CmdStartProc | AliOS-things/kernel/rhino/core/k_timer.c:268-284 | START on a non-timer or an active timer is a no-op; otherwise `match = count + init_count`, `remain = init_count`, ACTIVE, inserted at InsertPos |
| KTimer.TimerService.CmdStopProc | AliOS-things/kernel/rhino/core/k_timer.c:285-295 | STOP on a timer object takes it off the list and makes it DEACTIVE; anything else is a no-op |
| KTimer.TimerService.CmdChgProc | AliOS-things/kernel/rhino/core/k_timer.c:296-311 | CHG applies only with first ≠ 0 to a DEACTIVE timer, setting `init_count` and `round_ticks` |
| KTimer.TimerService.ArgChgProc | AliOS-things/kernel/rhino/core/k_timer.c:312-322 | ARG_CHG applies only to a DEACTIVE timer |
| KTimer.TimerService.CmdDelProc | AliOS-things/kernel/rhino/core/k_timer.c:323-356 | DEL and DYN_DEL apply only to a DEACTIVE timer of matching allocation and set its type to NONE |
| KTimer.TimerService.CmdProc | AliOS-things/kernel/rhino/core/k_timer.c:262-363 | cmd_proc keeps the service invariant, and the timers and list become CmdEffect of the command |
| KTimer.TimerService.ArgChgAutoProc | AliOS-things/kernel/rhino/core/k_timer.c:365-371 | STOP, then ARG_CHG, then START: a timer object is restarted from now with the new argument, wherever it was |
| KTimer.TimerService.TimerCmdProc | AliOS-things/kernel/rhino/core/k_timer.c:365-375 | the command dispatch keeps the service invariant, and the timers and list become CmdEffect of the command |
| KTimer.TimerService.FireAt | AliOS-things/kernel/rhino/core/k_timer.c:243-254 | one firing: its callback is recorded, a periodic timer is relisted `round_ticks` ahead, a one-shot one becomes DEACTIVE |
| KTimer.TimerService.TimerCbProc | AliOS-things/kernel/rhino/core/k_timer.c:229-260 | the loop's outcome is exactly Walk from the front of the list |
| KTimer.TimerService.TimerTaskReceive | AliOS-things/kernel/rhino/core/k_timer.c:389-399 | after a receive, `g_timer_count` takes the tick, the oldest command is consumed, and the timers and list become its CmdEffect at that tick |
| KTimer.TimerService.TimerTaskExpire | AliOS-things/kernel/rhino/core/k_timer.c:401-422 | `g_timer_count` takes the tick read, and the timers, list and new callbacks are Walk's from the front of the list at that tick |
| KTimer.CmdKeepsSorted | AliOS-things/kernel/rhino/core/k_timer.c:262-375 | every command keeps the timer list sorted by `match - g_timer_count` at the same tick count |
| KTimer.RelistKeepsSorted | AliOS-things/kernel/rhino/core/k_timer.c:268-295 | start, stop and the stop-change-start of ARG_CHG_AUTO keep the list sorted |
| KTimer.LinkKeepsSorted | AliOS-things/kernel/rhino/core/k_timer.c:270-283 | a timer started at the current tick and inserted by timer_list_pri_insert keeps the list sorted |
| KTimer.UnlistedKeepsSorted | AliOS-things/kernel/rhino/core/k_timer.c:296-356 | changing a DEACTIVE timer, which is not listed, keeps the list sorted |
| YLoop.InsertPos | AliOS-things/kernel/yloop/yloop.c:204-210 | the insertion point: after every deadline ≤ the new one, before the first later one |
| YLoop.InsertPosIs | AliOS-things/kernel/yloop/yloop.c:204-210 | any position with every earlier deadline ≤ d and the next one later is the insertion point: it is unique |
| YLoop.InsertKeepsAscending | AliOS-things/kernel/yloop/yloop.c:202-210 | the insertion keeps the timeout list ascending |
| YLoop.RemoveKeepsAscending | AliOS-things/kernel/yloop/yloop.c:234 | removing one entry keeps the list ascending |
| YLoop.FirstMatch | AliOS-things/kernel/yloop/yloop.c:221-233 | the first entry with matching cb and private_data, and matching ms unless ms == -1 |
| YLoop.FirstMatchIs | AliOS-things/kernel/yloop/yloop.c:221-233 | the scan's stopping point is the only index with no earlier match and a match there |
| YLoop.PollDelay | AliOS-things/kernel/yloop/yloop.c:247-260 | -1 exactly when no timeout is pending; otherwise max(0, first deadline − now) |
| YLoop.FindReader | AliOS-things/kernel/yloop/yloop.c:164-173 | the first reader on sock |
| YLoop.FindReaderIs | AliOS-things/kernel/yloop/yloop.c:164-173 | the scan's stopping point is the only index with no earlier reader on sock and that reader there |
| YLoop.RegisterAsWritten | AliOS-things/kernel/yloop/yloop.c:119-136 | registration with `reader_count` as a `uint8_t`: the count goes up by one or wraps from 255 to 0 |
| YLoop.RegisterAsWrittenLosesReaders | AliOS-things/kernel/yloop/yloop.c:38 | the 256th registration leaves a count of 0, and the next one copies none of the stored readers |
| YLoop.DueEvent | AliOS-things/kernel/yloop/yloop.c:274-284 | at most one timeout fires per iteration: the earliest, when its deadline ≤ now |
| YLoop.ReaderEvents | AliOS-things/kernel/yloop/yloop.c:286-296 | no reader callbacks when poll returned ≤ 0; at most one per reader |
| YLoop.ReaderEventsSnoc | AliOS-things/kernel/yloop/yloop.c:290-296 | reader callbacks run in array order |
| YLoop.SuffixAscending | AliOS-things/kernel/yloop/yloop.c:280 | removing timeouts from the front keeps the list ascending |
| YLoop.Loop.constructor | AliOS-things/kernel/yloop/yloop.c:84-107 | aos_loop_init: no readers, no timeouts, no event fd |
| YLoop.Loop.Exit | AliOS-things/kernel/yloop/yloop.c:303-307 | sets `terminate` |
| YLoop.Loop.PollReadFd | AliOS-things/kernel/yloop/yloop.c:110-154 | a negative sock gives -EINVAL and changes nothing; failed allocation gives -ENOMEM; success appends one reader after the existing ones, in order, and raises `max_sock` (kept to 8 bits) when sock exceeds it |
| YLoop.Loop.CancelPollReadFd | AliOS-things/kernel/yloop/yloop.c:157-182 | removes only the first reader on sock, shifting the later ones down; a no-op when none matches |
| YLoop.ShiftDown | AliOS-things/kernel/yloop/yloop.c:175-181 | the first n-1 readers become the old first n with the one at index i removed, the others keeping their order |
| YLoop.Loop.PostDelayedAction | AliOS-things/kernel/yloop/yloop.c:185-213 | a NULL action gives -EINVAL and failed allocation -ENOMEM, both changing nothing; otherwise the timeout with deadline now + ms is inserted after equal deadlines, keeping the list ascending |
| YLoop.Loop.CancelDelayedAction | AliOS-things/kernel/yloop/yloop.c:216-238 | removes at most one entry, the first match, keeping the list ascending |
| YLoop.Loop.RunOnce | AliOS-things/kernel/yloop/yloop.c:247-296 | one iteration: the poll delay is PollDelay; a failed poll other than EINTR stops with nothing changed; otherwise the earliest due timeout fires and is removed, then the readable readers' callbacks run |
| YLoop.Loop.LoopRun | AliOS-things/kernel/yloop/yloop.c:240-300 | the loop clears `terminate` on return, except after a failed poll; a terminate already set runs nothing; otherwise the exit reason, the callbacks invoked in order, the poll delays and the delayed actions left are exactly Run of the actions, the readers and the environment's answers; a drained loop has no timeouts and no readers; the timeouts left are a suffix of the list and stay ascending |
| YLoop.Loop.Passes | AliOS-things/kernel/yloop/yloop.c:245-297 | the while loop's passes, up to a failed poll, an empty context or the last answer, have exactly Run's outcome |
| YLoop.Run | AliOS-things/kernel/yloop/yloop.c:245-297 | pass by pass: poll with PollDelay; stop on a non-EINTR failure; fire the earliest due action, then the readable readers; so a run never reports Terminated, polls at most once per answer and exactly once per answer when it runs out of answers, reports at least one poll when a poll failed, and is Drained exactly when no poll failed and no action and no reader is left |
| YLoop.RunFiresPrefix | AliOS-things/kernel/yloop/yloop.c:274-284 | over a whole run the delayed-action callbacks invoked are those of the first n actions of the list, in list order and each once, and exactly the rest is left |
| YLoop.RunLeaves | AliOS-things/kernel/yloop/yloop.c:274-284 | the actions a run leaves are a suffix of the list, ascending when the list was |

## Left out

- The filesystem copier `code/copy_files.py`: it is host filesystem I/O only.
- Interrupts and critical sections: critical sections, interrupt-nesting checks (including the interrupt check in `krhino_queue_recv`), trace hooks and context switching. Each API call is one atomic step; `core_sched` only picks the task to run.
- Multi-core: every `RHINO_CONFIG_CPU_NUM > 1` branch.
- Blocking, ticks and timeouts:
  - The tick list, sleeping and timeouts are not modelled. `krhino_task_sleep` and the timeout argument of blocking calls beyond `NO_WAIT` are left out.
  - What happens after a blocked task resumes (`pend_state_end_proc`) is not modelled. A blocking call returns `BLOCKED`, which stands for "the caller now waits"; the state at the moment of blocking is modelled exactly.
- `k_pend.c` is not part of this model. Its helpers `pend_to_blk_obj`, `pend_task_wakeup`, `pend_task_rm` and `pend_list_reorder` are modelled in `KPend` with the contracts their callers rely on. `mutex_task_pri_reset` inside `pend_task_rm` is not modelled: every modelled caller has already set the object type to NONE, and then it does nothing.
- Dynamic allocation and task removal:
  - Dynamic create and delete, and `krhino_mm_alloc`/`free`. Only the `mm_alloc_flag` checks are kept.
  - `krhino_task_del` and `krhino_task_dyn_del`, `krhino_task_wait_abort`, `krhino_queue_info_get`.
  - Stack checks and stack-usage queries: they depend on raw memory layout.
- Memory and pointers:
  - Name, entry and stack pointers, and out-pointers, are presence flags (`hasName`, `hasOut`, ...).
  - `krhino_task_pri_change`'s `old_pri` NULL check is not modelled; the old priority is returned.
  - Creation requires a handle not yet in use, since an address cannot be reused while it is live.
- Kernel start: the model is of a started kernel, so the early `RHINO_SUCCESS` return of `krhino_mutex_lock` and `krhino_mutex_unlock` while `g_sys_stat` is `RHINO_STOPPED` is not modelled.
- Timer task and event loop:
  - `k_buf_queue.c` is not part of this model: whether `g_timer_queue` has room for one more command is the `full` argument of the timer API.
  - The timer task's endless blocking loop is reduced to its two steps, `TimerTaskReceive` and `TimerTaskExpire`, with the tick read passed in.
  - The yloop calls to `aos_poll`, `aos_now_ms` and `aos_fcntl` become parameters; `aos_loop_destroy` and the task-specific context plumbing are left out.
- Bounded constructs:
  - `Kernel.idle` is one fixed task.
  - Configuration values that are not arguments are constants (listed above).
- Weaker contracts, one member per line below:
- KPrio.TaskPriChange: the walk along the mutex chain is bounded by a fuel argument, the number of tasks, which is enough for a chain without cycles. Past the first step, its contract states only that priorities and wait-list order change and the kernel invariant holds, not the exact priorities reached.
- KPrio.PriChain: states that only priorities and wait-list order change, the invariant, and whether INV_TASK_STATE was reported; not which priorities the chain reaches, since a deadlock cycle may visit a task twice.
- KTask.ChangePriority: for a pending task, it states the base priority, that only priorities and wait-list order change, and the invariant; it does not state the exact priorities along the chain.
- KTask.ApplyPriority: for a pending task, as KTask.ChangePriority.
- KTask.PriorityToLimit: for a pending task, as KTask.ChangePriority.
- KMutex.MutexLock: requires that the idle task neither takes nor waits on the mutex. An idle task owning a mutex could inherit a higher priority and leave the idle ring, which the kernel invariant excludes; an idle task waiting would empty the idle ring. For an owner that is itself pending, the inherited priorities are stated only as a priority-only change.
- KMutex.LockObj: as KMutex.MutexLock.
- KMutex.LockFree: requires, as KMutex.MutexLock, that the taker is not the idle task.
- KMutex.LockBlock: for a pending owner, the priorities along the chain are stated only as a priority-only change, and so is the caller's own priority.
- KMutex.Inherit: for a pending owner, only the priority-only change is stated.
- KMutex.Release: for a pending task, its priority after `mutex_release` is stated only as a priority-only change.
- KMutex.Retire: for a pending owner, as KMutex.Release.
- KMutex.MutexDel: for a pending owner, as KMutex.Release.
- KMutex.DelObj: for a pending owner, as KMutex.Release.
- KSem.SemTake: requires that the idle task does not block. In the source, the idle task blocking would make `ready_list_rm` empty the idle ring and reach `k_err_proc(RHINO_SYS_FATAL_ERR)`; that fatal path is not modelled.
- KSem.TakeObj: as KSem.SemTake.
- KQueue.QueueRecv: as KSem.SemTake.
- KQueue.RecvObj: as KSem.SemTake.
- KSem.SemCountGet: requires the handle to name a semaphore body, because `krhino_sem_count_get` reads the count without a type check.
- YLoop.Loop.LoopRun: callbacks are recorded, not run, so a callback that calls `aos_loop_exit` or registers or cancels a reader or a delayed action during the run is not modelled; within a run only the loop itself changes the context.
- YLoop.Loop.PollReadFd: `reader_count` does not wrap here; the `uint8_t` original is `YLoop.RegisterAsWritten`, under Findings.

## Findings

| source | as written | input that shows it | evidently intended | confidence | as-written member | corrected member |
|---|---|---|---|---|---|---|
| AliOS-things/kernel/yloop/yloop.c:38 | `reader_count` is a `uint8_t`, and `aos_poll_read_fd` increments it with no bound (line 134) | 255 readers registered, then one more: the count wraps to 0, so `aos_loop_run` polls no reader, and the next registration copies none of the 256 stored readers (line 136) | every registered reader stays registered | not executed | YLoop.RegisterAsWrittenLosesReaders | YLoop.Loop.PollReadFd |
