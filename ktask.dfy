// The task entry points of k_task.c on one CPU: creation, the
// suspend/resume state machine with its nesting count, yield, the
// priority change API, and the per-task settings (time slice, scheduling
// policy, user information slots). A NULL task pointer is None.
module KTask {
  import opened KObj
  import opened KSched
  import opened KState
  import opened KPend
  import opened KPrio

  // ---------------------------------------------------------------------
  // The suspend/resume state machine, on control blocks.

  /** A state task_suspend accepts. */
  predicate Suspendable(x: Tcb)
  {
    x.state != Seed && x.state != Deleted &&
    (IsSuspended(x.state) ==> x.suspendCount != SUSPEND_NESTED_MAX)
  }

  /** The suspend count as the state shows it (zero when not suspended). */
  function Depth(x: Tcb): nat
  {
    if IsSuspended(x.state) then x.suspendCount else 0
  }

  /** One more level of suspension: RDY, SLEEP and PEND become SUSPENDED,
      SLEEP_SUSPENDED and PEND_SUSPENDED with count 1; a suspended task
      counts one more level. */
  function SuspendedTcb(x: Tcb): (y: Tcb)
    requires Suspendable(x)
    ensures IsSuspended(y.state) && y.suspendCount == Depth(x) + 1
    ensures IsPending(y.state) == IsPending(x.state)
    ensures (y.state == SleepSuspended) == (x.state == Sleep || x.state == SleepSuspended)
    ensures y.(state := x.state, suspendCount := x.suspendCount) == x
  {
    if x.state == Rdy then x.(state := Suspended, suspendCount := 1)
    else if x.state == Sleep then x.(state := SleepSuspended, suspendCount := 1)
    else if x.state == Pend then x.(state := PendSuspended, suspendCount := 1)
    else x.(suspendCount := x.suspendCount + 1)
  }

  /** One level of suspension less; the last level restores the state the
      task had before it was suspended. */
  function ResumedTcb(x: Tcb): (y: Tcb)
    requires IsSuspended(x.state) && x.suspendCount > 0
    ensures y.suspendCount == x.suspendCount - 1
    ensures y.suspendCount > 0 ==> y.state == x.state
    ensures IsPending(y.state) == IsPending(x.state)
    ensures y.(state := x.state, suspendCount := x.suspendCount) == x
  {
    var n := x.suspendCount - 1;
    if n > 0 then x.(suspendCount := n)
    else if x.state == Suspended then x.(state := Rdy, suspendCount := 0)
    else if x.state == SleepSuspended then x.(state := Sleep, suspendCount := 0)
    else x.(state := Pend, suspendCount := 0)
  }

  /** n nested suspensions. */
  function SuspendN(x: Tcb, n: nat): (y: Tcb)
    requires x.state != Seed && x.state != Deleted && Depth(x) + n <= SUSPEND_NESTED_MAX
    ensures y.state != Seed && y.state != Deleted
    ensures n > 0 ==> IsSuspended(y.state) && y.suspendCount == Depth(x) + n
    ensures n == 0 ==> y == x
  {
    if n == 0 then x else SuspendedTcb(SuspendN(x, n - 1))
  }

  /** n resumptions. */
  function ResumeN(x: Tcb, n: nat): Tcb
    requires n <= Depth(x)
    decreases n
  {
    if n == 0 then x else ResumeN(ResumedTcb(x), n - 1)
  }

  /** The suspend count nests: n suspensions followed by n resumptions
      give back the control block, the state included. */
  lemma {:induction false} ResumeUndoesSuspend(x: Tcb, n: nat)
    requires x.state != Seed && x.state != Deleted && Depth(x) + n <= SUSPEND_NESTED_MAX
    requires IsSuspended(x.state) <==> x.suspendCount > 0
    ensures n <= Depth(SuspendN(x, n))
    ensures ResumeN(SuspendN(x, n), n) == x
  {
    if n > 0 {
      var z := SuspendN(x, n - 1);
      ResumeUndoesSuspend(x, n - 1);
      assert ResumedTcb(SuspendedTcb(z)) == z;
      assert ResumeN(SuspendN(x, n), n) == ResumeN(ResumedTcb(SuspendedTcb(z)), n - 1);
    }
  }

  /** Fewer resumptions than suspensions leave the task suspended. */
  lemma {:induction false} StillSuspended(x: Tcb, n: nat, m: nat)
    requires x.state != Seed && x.state != Deleted && Depth(x) + n <= SUSPEND_NESTED_MAX
    requires IsSuspended(x.state) <==> x.suspendCount > 0
    requires m < n
    ensures m <= Depth(SuspendN(x, n))
    ensures IsSuspended(ResumeN(SuspendN(x, n), m).state)
    ensures ResumeN(SuspendN(x, n), m).suspendCount == Depth(x) + n - m
  {
    if m > 0 {
      var z := SuspendN(x, n - 1);
      StillSuspended(x, n - 1, m - 1);
      assert ResumedTcb(SuspendedTcb(z)) == z;
      assert ResumeN(SuspendN(x, n), m) == ResumeN(ResumedTcb(SuspendedTcb(z)), m - 1);
    }
  }

  // ---------------------------------------------------------------------
  // Creation.

  /** The code krhino_task_create returns on a kernel whose idle task
      exists; the NULL checks come first, then the stack size, the
      priority range and the one idle task per CPU. */
  function CreateStatus(task: Option<TaskId>, hasName: bool, hasEntry: bool, hasStack: bool,
                        prio: nat, stackSize: nat): (st: Status)
    ensures st == Success <==> task.Some? && hasName && hasEntry && hasStack && stackSize > 0 &&
                                prio < PRI_MAX && prio != IDLE_PRI
    ensures task.Some? && hasName && hasEntry && hasStack ==>
              (stackSize == 0 ==> st == TaskInvStackSize) &&
              (stackSize > 0 && prio >= PRI_MAX ==> st == BeyondMaxPri) &&
              (stackSize > 0 && prio == IDLE_PRI ==> st == IdleTaskExist)
  {
    if task.None? || !hasName || !hasEntry || !hasStack then NullPtr
    else if stackSize == 0 then TaskInvStackSize
    else if prio >= PRI_MAX then BeyondMaxPri
    else if prio == IDLE_PRI then IdleTaskExist
    else Success
  }

  /** krhino_task_create (task_create with a static control block): a
      fresh control block as NewTcb describes it; with autorun the task
      joins the tail of its ring and the scheduler runs, otherwise it
      stays suspended once. Any refusal changes nothing. hasName,
      hasEntry and hasStack say whether those pointers are not NULL. */
  method TaskCreate(k: Kernel, task: Option<TaskId>, hasName: bool, hasEntry: bool, hasStack: bool,
                    prio: nat, ticks: nat, stackSize: nat, autorun: bool) returns (st: Status)
    requires k.Valid() && (task.Some? ==> task.value !in k.tasks)
    modifies k`tasks, k`active, k.rq, k.rq.lists
    ensures k.Valid()
    ensures st == CreateStatus(task, hasName, hasEntry, hasStack, prio, stackSize)
    ensures st != Success ==>
              k.tasks == old(k.tasks) && k.rq.lists[..] == old(k.rq.lists[..]) && k.active == old(k.active)
    ensures st == Success ==>
              k.tasks == old(k.tasks)[task.value := NewTcb(prio, ticks, stackSize, autorun, StaticAlloc)] &&
              k.rq.lists[..] == (if autorun then old(k.rq.lists[..])[prio := old(k.rq.lists[prio]) + [task.value]]
                                 else old(k.rq.lists[..]))
    ensures st == Success && !autorun ==> k.active == old(k.active)
    ensures st == Success && autorun && k.schedLock == 0 ==> HighestReady(k.tasks, k.active)
  {
    st := CreateStatus(task, hasName, hasEntry, hasStack, prio, stackSize);
    if st != Success {
      return;
    }
    var t := task.value;
    var x := NewTcb(prio, ticks, stackSize, autorun, StaticAlloc);
    if autorun {
      assert !InRing(k.tasks, t, prio);
      assert t !in k.rq.lists[prio];
      ghost var lists0 := k.rq.lists[..];
      k.rq.AddTail(t, prio);
      KernelJoin(k.tasks, k.objects, lists0, k.rq.lists[..], k.active, k.idle, t, x);
      k.tasks := k.tasks[t := x];
      CoreSched(k);
    } else {
      KernelNew(k.tasks, k.objects, k.rq.lists[..], k.active, k.idle, t, x);
      k.tasks := k.tasks[t := x];
    }
  }

  // ---------------------------------------------------------------------
  // Suspend and resume.

  /** The code krhino_task_suspend returns for task t: idle-priority tasks
      may not be suspended, nor the running task while the scheduler is
      locked; a task being created or deleted is in the wrong state, and
      the count cannot nest beyond its maximum. */
  function SuspendStatus(x: Tcb, running: bool, schedLock: nat): (st: Status)
    ensures st == Success <==> x.prio != IDLE_PRI && !(running && schedLock > 0) && Suspendable(x)
  {
    if x.prio == IDLE_PRI then TaskSuspendNotAllowed
    else if running && schedLock > 0 then Status.SchedDisable
    else if x.state == Seed || x.state == Deleted then InvTaskState
    else if IsSuspended(x.state) && x.suspendCount == SUSPEND_NESTED_MAX then SuspendedCountOvf
    else Success
  }

  /** krhino_task_suspend: one more level of suspension for t; a ready
      task also leaves its ring, and the scheduler runs. */
  method TaskSuspend(k: Kernel, task: Option<TaskId>) returns (st: Status)
    requires k.Valid() && (task.Some? ==> task.value in k.tasks)
    modifies k`tasks, k`active, k.rq, k.rq.lists
    ensures k.Valid()
    ensures task.None? ==> st == NullPtr
    ensures task.Some? ==> st == SuspendStatus(old(k.tasks[task.value]), task.value == old(k.active), k.schedLock)
    ensures st != Success ==>
              k.tasks == old(k.tasks) && k.rq.lists[..] == old(k.rq.lists[..]) && k.active == old(k.active)
    ensures st == Success ==>
              var t := task.value;
              var x := old(k.tasks[t]);
              k.tasks == old(k.tasks)[t := SuspendedTcb(x)] &&
              k.rq.lists[..] == (if x.state == Rdy then old(k.rq.lists[..])[x.prio := Remove(old(k.rq.lists[x.prio]), t)]
                                 else old(k.rq.lists[..]))
    ensures st == Success && k.schedLock == 0 ==> HighestReady(k.tasks, k.active)
    ensures st == Success && k.schedLock > 0 ==> k.active == old(k.active)
  {
    if task.None? {
      return NullPtr;
    }
    var t := task.value;
    var x := k.tasks[t];
    st := SuspendStatus(x, t == k.active, k.schedLock);
    if st != Success {
      return;
    }
    SuspendOne(k, t);
    CoreSched(k);
  }

  /** The switch of task_suspend for a task it accepts. */
  method SuspendOne(k: Kernel, t: TaskId)
    requires k.Valid() && t in k.tasks && k.tasks[t].prio != IDLE_PRI && Suspendable(k.tasks[t])
    requires t == k.active ==> k.schedLock == 0
    modifies k`tasks, k.rq, k.rq.lists
    ensures k.Ok() && (k.schedLock > 0 ==> k.tasks[k.active].state == Rdy)
    ensures var x := old(k.tasks[t]);
            k.tasks == old(k.tasks)[t := SuspendedTcb(x)] &&
            k.rq.lists[..] == (if x.state == Rdy then old(k.rq.lists[..])[x.prio := Remove(old(k.rq.lists[x.prio]), t)]
                               else old(k.rq.lists[..]))
  {
    var x := k.tasks[t];
    if x.state == Rdy {
      SuspendReady(k, t);
    } else {
      var y := SuspendedTcb(x);
      KernelPut(k.tasks, k.objects, k.rq.lists[..], k.active, k.idle, t, y);
      k.tasks := k.tasks[t := y];
    }
  }

  /** The RDY case of task_suspend: t becomes SUSPENDED and ready_list_rm
      takes it out of its ring. */
  method SuspendReady(k: Kernel, t: TaskId)
    requires k.Valid() && t in k.tasks && k.tasks[t].state == Rdy && k.tasks[t].prio != IDLE_PRI
    modifies k`tasks, k.rq, k.rq.lists
    ensures k.Ok() && (k.tasks[k.active].state != Rdy ==> k.active == t)
    ensures var x := old(k.tasks[t]);
            k.tasks == old(k.tasks)[t := SuspendedTcb(x)] &&
            k.rq.lists[..] == old(k.rq.lists[..])[x.prio := Remove(old(k.rq.lists[x.prio]), t)]
  {
    var x := k.tasks[t];
    IdleListed(k.tasks, k.rq.lists[..], k.idle);
    assert IDLE_PRI in k.rq.bitmap;
    ghost var tasks0, lists0 := k.tasks, k.rq.lists[..];
    assert t in k.rq.lists[x.prio];
    var fatal := k.rq.Rm(t, x.prio);
    assert IDLE_PRI in k.rq.bitmap;
    if fatal {
      assert false;
    }
    var y := SuspendedTcb(x);
    KernelLeave(tasks0, k.objects, lists0, k.rq.lists[..], k.active, k.idle, t, y);
    k.tasks := k.tasks[t := y];
  }

  /** The code krhino_task_resume returns for a task in state x. */
  function ResumeStatus(x: Tcb): (st: Status)
    ensures st == Success <==> IsSuspended(x.state)
    ensures x.state in {Rdy, Sleep, Pend} <==> st == TaskNotSuspended
  {
    match x.state
    case Rdy => TaskNotSuspended
    case Sleep => TaskNotSuspended
    case Pend => TaskNotSuspended
    case Seed => InvTaskState
    case Deleted => InvTaskState
    case _ => Success
  }

  /** krhino_task_resume: one level of suspension less for t; a task whose
      last level goes rejoins the state it was suspended from, and a
      ready one its ring through ready_list_add; the scheduler runs. */
  method TaskResume(k: Kernel, task: Option<TaskId>) returns (st: Status)
    requires k.Valid() && (task.Some? ==> task.value in k.tasks)
    modifies k`tasks, k`active, k.rq, k.rq.lists
    ensures k.Valid()
    ensures task.None? ==> st == NullPtr
    ensures task.Some? ==> st == ResumeStatus(old(k.tasks[task.value]))
    ensures st != Success ==>
              k.tasks == old(k.tasks) && k.rq.lists[..] == old(k.rq.lists[..]) && k.active == old(k.active)
    ensures st == Success ==>
              var t := task.value;
              var y := ResumedTcb(old(k.tasks[t]));
              k.tasks == old(k.tasks)[t := y] &&
              k.rq.lists[..] == (if y.state == Rdy then
                                   old(k.rq.lists[..])[y.prio :=
                                     if y.prio == old(k.tasks[k.active].prio) then old(k.rq.lists[y.prio]) + [t]
                                     else [t] + old(k.rq.lists[y.prio])]
                                 else old(k.rq.lists[..]))
    ensures st == Success && k.schedLock == 0 ==> HighestReady(k.tasks, k.active)
    ensures st == Success && k.schedLock > 0 ==> k.active == old(k.active)
  {
    if task.None? {
      return NullPtr;
    }
    var t := task.value;
    var x := k.tasks[t];
    st := ResumeStatus(x);
    if st != Success {
      return;
    }
    ResumeOne(k, t);
    CoreSched(k);
  }

  /** The switch of task_resume for a suspended task. */
  method ResumeOne(k: Kernel, t: TaskId)
    requires k.Valid() && t in k.tasks && IsSuspended(k.tasks[t].state)
    modifies k`tasks, k.rq, k.rq.lists
    ensures k.Valid()
    ensures var y := ResumedTcb(old(k.tasks[t]));
            k.tasks == old(k.tasks)[t := y] &&
            k.rq.lists[..] == (if y.state == Rdy then
                                 old(k.rq.lists[..])[y.prio :=
                                   if y.prio == old(k.tasks[k.active].prio) then old(k.rq.lists[y.prio]) + [t]
                                   else [t] + old(k.rq.lists[y.prio])]
                               else old(k.rq.lists[..]))
  {
    var x := k.tasks[t];
    assert TcbOk(x);
    var y := ResumedTcb(x);
    if y.state == Rdy {
      ResumeReady(k, t, y);
    } else {
      KernelPut(k.tasks, k.objects, k.rq.lists[..], k.active, k.idle, t, y);
      k.tasks := k.tasks[t := y];
    }
  }

  /** The last level of a SUSPENDED task goes: it becomes ready (y) and
      ready_list_add puts it in its ring. */
  method ResumeReady(k: Kernel, t: TaskId, y: Tcb)
    requires k.Valid() && t in k.tasks && k.tasks[t].state == Suspended
    requires y == ResumedTcb(k.tasks[t]) && y.state == Rdy
    modifies k`tasks, k.rq, k.rq.lists
    ensures k.Valid()
    ensures k.tasks == old(k.tasks)[t := y]
    ensures k.rq.lists[..] == old(k.rq.lists[..])[y.prio :=
              if y.prio == old(k.tasks[k.active].prio) then old(k.rq.lists[y.prio]) + [t]
              else [t] + old(k.rq.lists[y.prio])]
  {
    assert TcbOk(k.tasks[t]) && TcbOk(y);
    assert !InRing(k.tasks, t, y.prio);
    assert t !in k.rq.lists[y.prio];
    ghost var lists0 := k.rq.lists[..];
    ReadyListAdd(k, t, y.prio);
    KernelJoin(k.tasks, k.objects, lists0, k.rq.lists[..], k.active, k.idle, t, y);
    k.tasks := k.tasks[t := y];
  }

  // ---------------------------------------------------------------------
  // Yield.

  /** krhino_task_yield: the ring of the running task's priority turns by
      one (ready_list_head_to_tail) and the scheduler runs. When the
      running task had the highest priority and is not alone in its ring,
      the next task of the ring takes the CPU. */
  method TaskYield(k: Kernel) returns (st: Status)
    requires k.Valid()
    modifies k.rq.lists, k`active
    ensures k.Valid() && st == Success
    ensures var p := old(k.tasks[k.active].prio);
            p < PRI_MAX && old(k.rq.lists[p]) != [] &&
            k.rq.lists[..] == old(k.rq.lists[..])[p := Rotate(old(k.rq.lists[p]))]
    ensures k.schedLock > 0 ==> k.active == old(k.active)
    ensures k.schedLock == 0 ==> HighestReady(k.tasks, k.active)
    ensures var p := old(k.tasks[k.active].prio);
            k.schedLock == 0 && HighestReady(k.tasks, old(k.active)) && |old(k.rq.lists[p])| > 1 ==>
              k.active == old(k.rq.lists[p][1])
  {
    var p := k.tasks[k.active].prio;
    assert k.active in k.rq.lists[p];
    ghost var ring := k.rq.lists[p];
    ghost var lists0 := k.rq.lists[..];
    k.rq.HeadToTail(p);
    RotateMembers(ring);
    RingsPermuted(k.tasks, lists0, k.rq.lists[..], p);
    ghost var before := k.active;
    CoreSched(k);
    if k.schedLock == 0 && HighestReady(k.tasks, before) && |ring| > 1 {
      assert k.active in k.rq.lists[k.rq.highestPri];
      assert k.rq.highestPri == k.tasks[k.active].prio;
      assert k.rq.highestPri == p;
      assert Rotate(ring)[0] == ring[1];
    }
    return Success;
  }

  // ---------------------------------------------------------------------
  // Priority change.

  /** The code krhino_task_pri_change returns before it changes anything:
      the idle priority may be neither left nor taken, and a deleted task
      keeps its priority. */
  function PriChangeRefusal(x: Tcb, pri: nat): (st: Status)
    ensures st == Success <==> x.prio < IDLE_PRI && pri < IDLE_PRI && x.state != Deleted
  {
    if x.prio >= IDLE_PRI || pri >= IDLE_PRI then PriChgNotAllowed
    else if x.state == Deleted then InvTaskState
    else Success
  }

  /** krhino_task_pri_change: after its checks, t's base priority becomes
      pri and its priority becomes pri limited by the waiters of the
      mutexes it holds (mutex_pri_limit); task_pri_change passes the
      change along the chain of mutex owners and the scheduler runs.
      oldPri is t's priority before the call. */
  method ChangePriority(k: Kernel, task: Option<TaskId>, pri: nat) returns (st: Status, oldPri: nat)
    requires k.Valid() && (task.Some? ==> task.value in k.tasks)
    modifies k`tasks, k`objects, k`errors, k`active, k.rq, k.rq.lists
    ensures k.Valid()
    ensures task.None? ==> st == NullPtr
    ensures task.Some? && PriChangeRefusal(old(k.tasks[task.value]), pri) != Success ==>
              st == PriChangeRefusal(old(k.tasks[task.value]), pri)
    ensures task.None? || PriChangeRefusal(old(k.tasks[task.value]), pri) != Success ==>
              k.tasks == old(k.tasks) && k.objects == old(k.objects) && k.errors == old(k.errors) &&
              k.rq.lists[..] == old(k.rq.lists[..]) && k.active == old(k.active)
    ensures task.Some? && PriChangeRefusal(old(k.tasks[task.value]), pri) == Success ==>
              oldPri == old(k.tasks[task.value].prio) &&
              NewPriority(old(k.tasks), old(k.objects), old(k.errors), old(k.rq.lists[..]), old(k.active),
                          task.value, pri, st, k.tasks, k.objects, k.errors, k.rq.lists[..], k.active)
    ensures st == Success && k.schedLock == 0 ==> HighestReady(k.tasks, k.active)
  {
    if task.None? {
      return NullPtr, 0;
    }
    var t := task.value;
    st := PriChangeRefusal(k.tasks[t], pri);
    if st != Success {
      return st, 0;
    }
    oldPri := k.tasks[t].prio;
    st := ApplyPriority(k, t, pri);
  }

  /** What a priority change that passed its checks leaves, from the
      state before (tasks .. active) to the state after (tasks' ..
      active'), with result st: t's base priority is pri; the rest of t
      and of every other task and object is as before except for
      priorities and the order of wait lists. A task that is not pending
      takes priority limit (the mutex_pri_limit of pri) and nothing else
      changes; when limit is t's priority already nothing but the base
      priority changes. A task being created that must change reports
      RHINO_INV_TASK_STATE to k_err_proc and the call returns that code
      without rescheduling. */
  ghost predicate NewPriority(tasks: map<TaskId, Tcb>, objects: map<ObjId, KObject>, errors: seq<Status>,
                              lists: seq<seq<TaskId>>, active: TaskId, t: TaskId, pri: nat, st: Status,
                              tasks': map<TaskId, Tcb>, objects': map<ObjId, KObject>, errors': seq<Status>,
                              lists': seq<seq<TaskId>>, active': TaskId)
    requires t in tasks
  {
    var x := tasks[t];
    var limit := MinHeadPri(tasks, objects, x.mutexList, pri);
    var based := tasks[t := x.(bPrio := pri)];
    PrioOnly(based, tasks') && OrderOnly(objects, objects') &&
    (st == Success || st == InvTaskState) &&
    (st == Success ==> errors' == errors) &&
    (st == InvTaskState ==> errors' == errors + [InvTaskState] && active' == active) &&
    (x.prio == limit ==>
       st == Success && tasks' == based && objects' == objects && lists' == lists) &&
    (x.prio != limit && x.state == Seed ==>
       st == InvTaskState && tasks' == based && objects' == objects && lists' == lists) &&
    (x.prio != limit && x.state in {Rdy, Suspended, Sleep, SleepSuspended} ==>
       st == Success && tasks' == based[t := x.(bPrio := pri, prio := limit)] && objects' == objects)
  }

  /** The part of krhino_task_pri_change after its checks. */
  method ApplyPriority(k: Kernel, t: TaskId, pri: nat) returns (st: Status)
    requires k.Valid() && t in k.tasks && PriChangeRefusal(k.tasks[t], pri) == Success
    modifies k`tasks, k`objects, k`errors, k`active, k.rq, k.rq.lists
    ensures k.Valid()
    ensures NewPriority(old(k.tasks), old(k.objects), old(k.errors), old(k.rq.lists[..]), old(k.active),
                        t, pri, st, k.tasks, k.objects, k.errors, k.rq.lists[..], k.active)
    ensures st == Success && k.schedLock == 0 ==> HighestReady(k.tasks, k.active)
  {
    ghost var tasks0, objects0, errors0, lists0, active0 := k.tasks, k.objects, k.errors, k.rq.lists[..], k.active;
    var limit := MutexPriLimit(k, t, pri);
    st := PriorityToLimit(k, t, pri, limit);
    if st != Success {
      return;
    }
    ghost var tasks2, objects2, errors2, lists2, active2 := k.tasks, k.objects, k.errors, k.rq.lists[..], k.active;
    assert NewPriority(tasks0, objects0, errors0, lists0, active0, t, pri, st, tasks2, objects2, errors2, lists2, active2);
    CoreSched(k);
    NewPriorityAnyActive(tasks0, objects0, errors0, lists0, active0, t, pri,
                         tasks2, objects2, errors2, lists2, active2, k.active);
  }

  /** SetBasePri followed by task_pri_change to limit. */
  method PriorityToLimit(k: Kernel, t: TaskId, pri: nat, limit: nat) returns (st: Status)
    requires k.Valid() && t in k.tasks && PriChangeRefusal(k.tasks[t], pri) == Success
    requires limit == MinHeadPri(k.tasks, k.objects, k.tasks[t].mutexList, pri)
    modifies k`tasks, k`objects, k`errors, k.rq, k.rq.lists
    ensures k.Valid()
    ensures NewPriority(old(k.tasks), old(k.objects), old(k.errors), old(k.rq.lists[..]), old(k.active),
                        t, pri, st, k.tasks, k.objects, k.errors, k.rq.lists[..], k.active)
  {
    ghost var tasks0, objects0, errors0, lists0 := k.tasks, k.objects, k.errors, k.rq.lists[..];
    assert t != k.idle;
    SetBasePri(k, t, pri);
    ghost var tasks1 := k.tasks;
    st := TaskPriChange(k, t, limit, |k.tasks|);
    PriorityApplied(tasks0, objects0, errors0, lists0, k.active, t, pri, limit, tasks1, st,
                    k.tasks, k.objects, k.errors, k.rq.lists[..], k.active);
  }

  /** Rescheduling after a successful change keeps NewPriority. */
  lemma NewPriorityAnyActive(tasks0: map<TaskId, Tcb>, objects0: map<ObjId, KObject>, errors0: seq<Status>,
                             lists0: seq<seq<TaskId>>, active0: TaskId, t: TaskId, pri: nat,
                             tasks2: map<TaskId, Tcb>, objects2: map<ObjId, KObject>, errors2: seq<Status>,
                             lists2: seq<seq<TaskId>>, active2: TaskId, active3: TaskId)
    requires t in tasks0
    requires NewPriority(tasks0, objects0, errors0, lists0, active0, t, pri, Success, tasks2, objects2, errors2, lists2, active2)
    ensures NewPriority(tasks0, objects0, errors0, lists0, active0, t, pri, Success, tasks2, objects2, errors2, lists2, active3)
  {
  }

  /** task_pri_change to the limit, after the base priority is set, leaves
      the state NewPriority describes. */
  lemma PriorityApplied(tasks0: map<TaskId, Tcb>, objects0: map<ObjId, KObject>, errors0: seq<Status>,
                        lists0: seq<seq<TaskId>>, active0: TaskId, t: TaskId, pri: nat, limit: nat,
                        tasks1: map<TaskId, Tcb>, st: Status, tasks2: map<TaskId, Tcb>, objects2: map<ObjId, KObject>,
                        errors2: seq<Status>, lists2: seq<seq<TaskId>>, active2: TaskId)
    requires t in tasks0 && tasks0[t].state != Deleted && tasks1 == tasks0[t := tasks0[t].(bPrio := pri)]
    requires limit == MinHeadPri(tasks0, objects0, tasks0[t].mutexList, pri)
    requires PrioOnly(tasks1, tasks2) && OrderOnly(objects0, objects2)
    requires st == Success || st == InvTaskState
    requires st == Success ==> errors2 == errors0
    requires st == InvTaskState ==> errors2 == errors0 + [InvTaskState] && active2 == active0
    requires tasks1[t].prio == limit ==>
               st == Success && tasks2 == tasks1 && objects2 == objects0 && lists2 == lists0
    requires tasks1[t].prio != limit && (tasks1[t].state == Seed || tasks1[t].state == Deleted) ==>
               st == InvTaskState && tasks2 == tasks1 && objects2 == objects0 && lists2 == lists0
    requires tasks1[t].prio != limit && tasks1[t].state in {Rdy, Suspended, Sleep, SleepSuspended} ==>
               st == Success && tasks2 == tasks1[t := tasks1[t].(prio := limit)] && objects2 == objects0
    ensures NewPriority(tasks0, objects0, errors0, lists0, active0, t, pri, st, tasks2, objects2, errors2, lists2, active2)
  {
    var x := tasks0[t];
    assert tasks1[t] == x.(bPrio := pri);
    Overwrite(tasks0, t, x.(bPrio := pri), x.(bPrio := pri, prio := limit));
  }

  /** task->b_prio = pri. */
  method SetBasePri(k: Kernel, t: TaskId, pri: nat)
    requires k.Valid() && t in k.tasks && pri < PRI_MAX
    modifies k`tasks
    ensures k.Valid()
    ensures k.tasks == old(k.tasks)[t := old(k.tasks[t]).(bPrio := pri)]
  {
    var y := k.tasks[t].(bPrio := pri);
    KernelPut(k.tasks, k.objects, k.rq.lists[..], k.active, k.idle, t, y);
    k.tasks := k.tasks[t := y];
  }

  // ---------------------------------------------------------------------
  // Per-task settings.

  /** The slice krhino_task_time_slice_set gives: slice, or the default
      slice for 0. */
  function SliceOf(slice: nat): (r: nat)
    ensures r >= 1
    ensures slice > 0 ==> r == slice
    ensures slice == 0 ==> r == TIME_SLICE_DEFAULT
  {
    if slice > 0 then slice else TIME_SLICE_DEFAULT
  }

  /** krhino_task_time_slice_set: the task's time total becomes
      SliceOf(slice) and its current slice is refilled to it. */
  method TimeSliceSet(k: Kernel, task: Option<TaskId>, slice: nat) returns (st: Status)
    requires k.Valid() && (task.Some? ==> task.value in k.tasks)
    modifies k`tasks
    ensures k.Valid()
    ensures task.None? ==> st == NullPtr && k.tasks == old(k.tasks)
    ensures task.Some? ==>
              st == Success &&
              k.tasks == old(k.tasks)[task.value := old(k.tasks[task.value]).(timeTotal := SliceOf(slice),
                                                                             timeSlice := SliceOf(slice))]
  {
    if task.None? {
      return NullPtr;
    }
    var t := task.value;
    var x := k.tasks[t];
    x := x.(timeTotal := SliceOf(slice));
    x := x.(timeSlice := x.timeTotal);
    KernelPut(k.tasks, k.objects, k.rq.lists[..], k.active, k.idle, t, x);
    k.tasks := k.tasks[t := x];
    return Success;
  }

  /** krhino_sched_policy_set: only KSCHED_FIFO and KSCHED_RR are
      policies. */
  method SchedPolicySet(k: Kernel, task: Option<TaskId>, policy: nat) returns (st: Status)
    requires k.Valid() && (task.Some? ==> task.value in k.tasks)
    modifies k`tasks
    ensures k.Valid()
    ensures st == (if task.None? then NullPtr
                   else if policy != KSCHED_FIFO && policy != KSCHED_RR then InvSchedWay
                   else Success)
    ensures st != Success ==> k.tasks == old(k.tasks)
    ensures st == Success ==> k.tasks == old(k.tasks)[task.value := old(k.tasks[task.value]).(policy := policy)]
  {
    if task.None? {
      return NullPtr;
    }
    if policy != KSCHED_FIFO && policy != KSCHED_RR {
      return InvSchedWay;
    }
    var t := task.value;
    var x := k.tasks[t].(policy := policy);
    KernelPut(k.tasks, k.objects, k.rq.lists[..], k.active, k.idle, t, x);
    k.tasks := k.tasks[t := x];
    return Success;
  }

  /** krhino_sched_policy_get: NULL_PTR for a NULL task or out pointer;
      otherwise the task's policy, which is always one of the two. */
  method SchedPolicyGet(k: Kernel, task: Option<TaskId>, hasOut: bool) returns (st: Status, policy: nat)
    requires k.Valid() && (task.Some? ==> task.value in k.tasks)
    ensures task.None? || !hasOut ==> st == NullPtr
    ensures task.Some? && hasOut ==> st == Success && policy == k.tasks[task.value].policy
    ensures st == Success ==> policy == KSCHED_FIFO || policy == KSCHED_RR
  {
    if task.None? || !hasOut {
      return NullPtr, 0;
    }
    assert TcbOk(k.tasks[task.value]);
    return Success, k.tasks[task.value].policy;
  }

  /** krhino_task_info_set: slot idx of the task's user information, for
      idx below RHINO_CONFIG_TASK_INFO_NUM. */
  method TaskInfoSet(k: Kernel, task: Option<TaskId>, idx: nat, info: int) returns (st: Status)
    requires k.Valid() && (task.Some? ==> task.value in k.tasks)
    modifies k`tasks
    ensures k.Valid()
    ensures st == (if task.None? then NullPtr else if idx >= TASK_INFO_NUM then InvParam else Success)
    ensures st != Success ==> k.tasks == old(k.tasks)
    ensures st == Success ==>
              var x := old(k.tasks[task.value]);
              k.tasks == old(k.tasks)[task.value := x.(userInfo := x.userInfo[idx := info])]
  {
    if task.None? {
      return NullPtr;
    }
    if idx >= TASK_INFO_NUM {
      return InvParam;
    }
    var t := task.value;
    var x := k.tasks[t];
    assert TcbOk(x);
    x := x.(userInfo := x.userInfo[idx := info]);
    KernelPut(k.tasks, k.objects, k.rq.lists[..], k.active, k.idle, t, x);
    k.tasks := k.tasks[t := x];
    return Success;
  }

  /** krhino_task_info_get: NULL_PTR for a NULL task or out pointer, then
      INV_PARAM for an index past the slots; otherwise what slot idx holds. */
  method TaskInfoGet(k: Kernel, task: Option<TaskId>, idx: nat, hasOut: bool) returns (st: Status, info: int)
    requires k.Valid() && (task.Some? ==> task.value in k.tasks)
    ensures st == (if task.None? || !hasOut then NullPtr else if idx >= TASK_INFO_NUM then InvParam else Success)
    ensures st == Success ==> idx < |k.tasks[task.value].userInfo| && info == k.tasks[task.value].userInfo[idx]
  {
    if task.None? || !hasOut {
      return NullPtr, 0;
    }
    if idx >= TASK_INFO_NUM {
      return InvParam, 0;
    }
    assert TcbOk(k.tasks[task.value]);
    return Success, k.tasks[task.value].userInfo[idx];
  }
}
