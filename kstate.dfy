// The global state of the Rhino kernel on one CPU (k_obj.c): the tables of
// task and kernel-object control blocks, the ready queue, the scheduler
// lock, the active task and the idle task; the invariant that ties them
// together; and the scheduler entry points of k_sched.c that work on them.
module KState {
  import opened KObj
  import opened KSched

  // ---------------------------------------------------------------------
  // The kernel invariant, on values.

  /** A task control block whose fields are in range and agree with its
      state: a suspended task has a suspend count, a pending task a
      blocking object, and its time slice is within its time total. */
  ghost predicate TcbOk(x: Tcb)
  {
    x.prio < PRI_MAX && x.bPrio < PRI_MAX &&
    x.suspendCount <= SUSPEND_NESTED_MAX &&
    (IsSuspended(x.state) <==> x.suspendCount > 0) &&
    (IsPending(x.state) <==> x.blkObj.Some?) &&
    1 <= x.timeTotal && x.timeSlice <= x.timeTotal &&
    (x.policy == KSCHED_FIFO || x.policy == KSCHED_RR) &&
    |x.userInfo| == TASK_INFO_NUM &&
    NoDup(x.mutexList)
  }

  ghost predicate TasksOk(tasks: map<TaskId, Tcb>)
  {
    forall t :: t in tasks ==> TcbOk(tasks[t])
  }

  /** t is a ready task of priority p. */
  ghost predicate InRing(tasks: map<TaskId, Tcb>, t: TaskId, p: nat)
  {
    t in tasks && tasks[t].state == Rdy && tasks[t].prio == p
  }

  /** The rings hold exactly the ready tasks, each at its own priority. */
  ghost predicate ReadyMembers(tasks: map<TaskId, Tcb>, lists: seq<seq<TaskId>>)
  {
    |lists| == PRI_MAX &&
    (forall p, t :: 0 <= p < PRI_MAX && t in lists[p] ==> InRing(tasks, t, p)) &&
    (forall t :: t in tasks && tasks[t].state == Rdy ==> tasks[t].prio < PRI_MAX && t in lists[tasks[t].prio])
  }

  /** The idle task always exists, is ready and keeps RHINO_IDLE_PRI. */
  ghost predicate IdleOk(tasks: map<TaskId, Tcb>, idle: TaskId)
  {
    idle in tasks && tasks[idle].state == Rdy && tasks[idle].prio == IDLE_PRI
  }

  /** A blocking object's body agrees with its type; nobody waits on a
      semaphore with a count, on a queue holding messages, or on a mutex
      without an owner. */
  ghost predicate ObjOk(x: KObject)
  {
    match x.objType
    case SemObjType =>
      x.body.SemBody? && x.body.count <= x.body.peakCount <= SEM_COUNT_MAX &&
      (x.blocked != [] ==> x.body.count == 0)
    case QueueObjType =>
      x.body.QueueBody? && 0 < x.body.size && x.body.curNum == |x.body.buf| &&
      x.body.curNum <= x.body.peakNum <= x.body.size &&
      (x.blocked != [] ==> x.body.curNum == 0)
    case MutexObjType =>
      x.body.MutexBody? && (x.body.owner.None? <==> x.body.nested == 0) &&
      x.body.nested <= MUTEX_NESTED_MAX && (x.body.owner.None? ==> x.blocked == [])
    case NoObjType => true
    case TimerObjType => false
  }

  ghost predicate ObjectsOk(objects: map<ObjId, KObject>)
  {
    forall o :: o in objects ==> ObjOk(objects[o])
  }

  /** The priority of t, 0 for a handle that is not a task. */
  function PrioOf(tasks: map<TaskId, Tcb>, t: TaskId): nat
  {
    if t in tasks then tasks[t].prio else 0
  }

  /** A wait list in BLK_POLICY_PRI order: highest priority first. */
  ghost predicate PriOrdered(tasks: map<TaskId, Tcb>, b: seq<TaskId>)
  {
    forall i, j :: 0 <= i < j < |b| ==> PrioOf(tasks, b[i]) <= PrioOf(tasks, b[j])
  }

  /** t is pending on object o. */
  ghost predicate Waiting(tasks: map<TaskId, Tcb>, t: TaskId, o: ObjId)
  {
    t in tasks && IsPending(tasks[t].state) && tasks[t].blkObj == Some(o)
  }

  /** The wait lists hold exactly the pending tasks, once each, in priority
      order, each on the object it is pending on. */
  ghost predicate WaitersOk(tasks: map<TaskId, Tcb>, objects: map<ObjId, KObject>)
  {
    (forall o :: o in objects ==> NoDup(objects[o].blocked) && PriOrdered(tasks, objects[o].blocked)) &&
    (forall o, t :: o in objects && t in objects[o].blocked ==> Waiting(tasks, t, o)) &&
    (forall t :: t in tasks && IsPending(tasks[t].state) ==>
       tasks[t].blkObj.Some? && tasks[t].blkObj.value in objects && t in objects[tasks[t].blkObj.value].blocked)
  }

  /** Mutex control block m names t as its owner (krhino_mutex_del keeps
      the owner field of a mutex whose type it has reset). */
  ghost predicate Held(objects: map<ObjId, KObject>, m: ObjId, t: TaskId)
  {
    m in objects && objects[m].body.MutexBody? && objects[m].body.owner == Some(t)
  }

  /** A task's mutex list holds mutexes it owns, and every owner is a task
      other than the idle task. */
  ghost predicate OwnersOk(tasks: map<TaskId, Tcb>, objects: map<ObjId, KObject>, idle: TaskId)
  {
    (forall t, m :: t in tasks && m in tasks[t].mutexList ==> Held(objects, m, t)) &&
    (forall m :: (m in objects && objects[m].objType == MutexObjType && objects[m].body.MutexBody? &&
                  objects[m].body.owner.Some?) ==>
                 objects[m].body.owner.value in tasks && objects[m].body.owner.value != idle)
  }

  ghost predicate KernelOk(tasks: map<TaskId, Tcb>, objects: map<ObjId, KObject>, lists: seq<seq<TaskId>>,
                           active: TaskId, idle: TaskId)
  {
    active in tasks && IdleOk(tasks, idle) && TasksOk(tasks) && ReadyMembers(tasks, lists) &&
    ObjectsOk(objects) && WaitersOk(tasks, objects) && OwnersOk(tasks, objects, idle)
  }

  /** The control block task_create leaves: time_total is ticks or the
      default slice, the slice is full, round robin, ready when autorun and
      otherwise suspended once; everything else zero. */
  function NewTcb(prio: nat, ticks: nat, stackSize: nat, autorun: bool, allocFlag: AllocFlag): (x: Tcb)
    requires prio < PRI_MAX
    ensures TcbOk(x) && !IsPending(x.state) && x.mutexList == []
    ensures x.state == (if autorun then Rdy else Suspended)
    ensures x.prio == prio && x.bPrio == prio && x.policy == KSCHED_RR
    ensures x.timeTotal == (if ticks > 0 then ticks else TIME_SLICE_DEFAULT) && x.timeSlice == x.timeTotal
  {
    var total := if ticks > 0 then ticks else TIME_SLICE_DEFAULT;
    Tcb(if autorun then Rdy else Suspended, if autorun then 0 else 1, prio, prio, total, total,
        KSCHED_RR, allocFlag, stackSize, [0, 0], [], None, BlkFinish, 0)
  }

  // ---------------------------------------------------------------------
  // How each kind of change keeps the invariant.

  /** The idle task's ring is never empty, so the ready queue is not. */
  lemma IdleListed(tasks: map<TaskId, Tcb>, lists: seq<seq<TaskId>>, idle: TaskId)
    requires IdleOk(tasks, idle) && ReadyMembers(tasks, lists)
    ensures idle in lists[IDLE_PRI]
  {
  }

  /** A change of t that keeps it ready at the same priority, or keeps it
      out of the ready queue, keeps the rings exact. */
  lemma ReadyPut(tasks: map<TaskId, Tcb>, lists: seq<seq<TaskId>>, t: TaskId, x: Tcb)
    requires ReadyMembers(tasks, lists) && t in tasks
    requires (x.state == Rdy) == (tasks[t].state == Rdy)
    requires x.state == Rdy ==> x.prio == tasks[t].prio
    ensures ReadyMembers(tasks[t := x], lists)
  {
    var tasks' := tasks[t := x];
    forall p, u | 0 <= p < PRI_MAX && u in lists[p] ensures InRing(tasks', u, p) {
      assert InRing(tasks, u, p);
    }
  }

  /** t becomes ready and joins the ring of its priority. */
  lemma ReadyJoin(tasks: map<TaskId, Tcb>, lists: seq<seq<TaskId>>, lists': seq<seq<TaskId>>, t: TaskId, x: Tcb)
    requires ReadyMembers(tasks, lists)
    requires t in tasks ==> tasks[t].state != Rdy
    requires x.state == Rdy && x.prio < PRI_MAX && |lists'| == PRI_MAX
    requires forall p :: 0 <= p < PRI_MAX && p != x.prio ==> lists'[p] == lists[p]
    requires forall u :: u in lists'[x.prio] <==> u == t || u in lists[x.prio]
    ensures ReadyMembers(tasks[t := x], lists')
  {
    var tasks' := tasks[t := x];
    forall p, u | 0 <= p < PRI_MAX && u in lists'[p] ensures InRing(tasks', u, p) {
      if u != t {
        assert u in lists[p];
        assert InRing(tasks, u, p);
      }
    }
    forall u | u in tasks' && tasks'[u].state == Rdy
      ensures tasks'[u].prio < PRI_MAX && u in lists'[tasks'[u].prio]
    {
      if u != t {
        assert u in lists[tasks[u].prio];
      }
    }
  }

  /** Ready task t leaves the ring of its priority and the ready state. */
  lemma ReadyLeave(tasks: map<TaskId, Tcb>, lists: seq<seq<TaskId>>, lists': seq<seq<TaskId>>, t: TaskId, x: Tcb)
    requires ReadyMembers(tasks, lists) && t in tasks && tasks[t].state == Rdy
    requires x.state != Rdy && |lists'| == PRI_MAX
    requires forall p :: 0 <= p < PRI_MAX && p != tasks[t].prio ==> lists'[p] == lists[p]
    requires forall u :: u in lists'[tasks[t].prio] <==> u != t && u in lists[tasks[t].prio]
    ensures ReadyMembers(tasks[t := x], lists')
  {
    var tasks' := tasks[t := x];
    forall p, u | 0 <= p < PRI_MAX && u in lists'[p] ensures InRing(tasks', u, p) {
      assert u in lists[p];
      assert InRing(tasks, u, p);
    }
  }

  /** A change of t that leaves its pending state, blocking object and
      (while it waits) priority as they were keeps the wait lists exact. */
  lemma WaitersPut(tasks: map<TaskId, Tcb>, objects: map<ObjId, KObject>, t: TaskId, x: Tcb)
    requires WaitersOk(tasks, objects) && t in tasks
    requires IsPending(x.state) == IsPending(tasks[t].state)
    requires IsPending(x.state) ==> x.blkObj == tasks[t].blkObj && x.prio == tasks[t].prio
    ensures WaitersOk(tasks[t := x], objects)
  {
    var tasks' := tasks[t := x];
    forall o | o in objects ensures PriOrdered(tasks', objects[o].blocked) {
      var b := objects[o].blocked;
      forall i, j | 0 <= i < j < |b| ensures PrioOf(tasks', b[i]) <= PrioOf(tasks', b[j]) {
        assert Waiting(tasks, b[i], o) && Waiting(tasks, b[j], o);
        assert PrioOf(tasks', b[i]) == PrioOf(tasks, b[i]);
        assert PrioOf(tasks', b[j]) == PrioOf(tasks, b[j]);
      }
    }
    forall o, u | o in objects && u in objects[o].blocked ensures Waiting(tasks', u, o) {
      assert Waiting(tasks, u, o);
    }
  }

  /** A new task that is not pending does not disturb the wait lists. */
  lemma WaitersNew(tasks: map<TaskId, Tcb>, objects: map<ObjId, KObject>, t: TaskId, x: Tcb)
    requires WaitersOk(tasks, objects) && t !in tasks && !IsPending(x.state)
    ensures WaitersOk(tasks[t := x], objects)
  {
    var tasks' := tasks[t := x];
    forall o | o in objects ensures PriOrdered(tasks', objects[o].blocked) {
      var b := objects[o].blocked;
      forall i, j | 0 <= i < j < |b| ensures PrioOf(tasks', b[i]) <= PrioOf(tasks', b[j]) {
        assert Waiting(tasks, b[i], o) && Waiting(tasks, b[j], o);
      }
    }
    forall o, u | o in objects && u in objects[o].blocked ensures Waiting(tasks', u, o) {
      assert Waiting(tasks, u, o);
    }
  }

  /** A change of t that keeps its mutex list keeps ownership exact. */
  lemma OwnersPut(tasks: map<TaskId, Tcb>, objects: map<ObjId, KObject>, idle: TaskId, t: TaskId, x: Tcb)
    requires OwnersOk(tasks, objects, idle)
    requires t in tasks ==> x.mutexList == tasks[t].mutexList
    requires t !in tasks ==> x.mutexList == []
    ensures OwnersOk(tasks[t := x], objects, idle)
  {
  }

  /** Replacing one task's control block: the general frame for all the
      changes that keep the task in the same ready ring or wait list. */
  lemma KernelPut(tasks: map<TaskId, Tcb>, objects: map<ObjId, KObject>, lists: seq<seq<TaskId>>,
                  active: TaskId, idle: TaskId, t: TaskId, x: Tcb)
    requires KernelOk(tasks, objects, lists, active, idle) && t in tasks && TcbOk(x)
    requires x.mutexList == tasks[t].mutexList
    requires (x.state == Rdy) == (tasks[t].state == Rdy)
    requires x.state == Rdy ==> x.prio == tasks[t].prio
    requires IsPending(x.state) == IsPending(tasks[t].state)
    requires IsPending(x.state) ==> x.blkObj == tasks[t].blkObj && x.prio == tasks[t].prio
    requires t == idle ==> x.prio == IDLE_PRI
    ensures KernelOk(tasks[t := x], objects, lists, active, idle)
  {
    ReadyPut(tasks, lists, t, x);
    WaitersPut(tasks, objects, t, x);
    OwnersPut(tasks, objects, idle, t, x);
  }

  /** A task that was neither ready nor pending becomes ready and joins
      its ring (resume, and creation with autorun when t is new). */
  lemma KernelJoin(tasks: map<TaskId, Tcb>, objects: map<ObjId, KObject>, lists: seq<seq<TaskId>>,
                   lists': seq<seq<TaskId>>, active: TaskId, idle: TaskId, t: TaskId, x: Tcb)
    requires KernelOk(tasks, objects, lists, active, idle) && TcbOk(x) && x.state == Rdy
    requires t in tasks ==> tasks[t].state != Rdy && !IsPending(tasks[t].state) && x.mutexList == tasks[t].mutexList
    requires t !in tasks ==> x.mutexList == []
    requires |lists'| == PRI_MAX
    requires forall p :: 0 <= p < PRI_MAX && p != x.prio ==> lists'[p] == lists[p]
    requires forall u :: u in lists'[x.prio] <==> u == t || u in lists[x.prio]
    ensures KernelOk(tasks[t := x], objects, lists', active, idle)
  {
    ReadyJoin(tasks, lists, lists', t, x);
    if t in tasks {
      WaitersPut(tasks, objects, t, x);
    } else {
      WaitersNew(tasks, objects, t, x);
    }
    OwnersPut(tasks, objects, idle, t, x);
  }

  /** A new task that is not ready (creation without autorun). */
  lemma KernelNew(tasks: map<TaskId, Tcb>, objects: map<ObjId, KObject>, lists: seq<seq<TaskId>>,
                  active: TaskId, idle: TaskId, t: TaskId, x: Tcb)
    requires KernelOk(tasks, objects, lists, active, idle) && TcbOk(x) && t !in tasks
    requires x.state != Rdy && !IsPending(x.state) && x.mutexList == []
    ensures KernelOk(tasks[t := x], objects, lists, active, idle)
  {
    var tasks' := tasks[t := x];
    forall p, u | 0 <= p < PRI_MAX && u in lists[p] ensures InRing(tasks', u, p) {
      assert InRing(tasks, u, p);
    }
    WaitersNew(tasks, objects, t, x);
    OwnersPut(tasks, objects, idle, t, x);
  }

  /** A ready task other than the idle task leaves the ready queue for a
      state that is not pending (suspension). */
  lemma KernelLeave(tasks: map<TaskId, Tcb>, objects: map<ObjId, KObject>, lists: seq<seq<TaskId>>,
                    lists': seq<seq<TaskId>>, active: TaskId, idle: TaskId, t: TaskId, x: Tcb)
    requires KernelOk(tasks, objects, lists, active, idle) && t in tasks && tasks[t].state == Rdy && t != idle
    requires TcbOk(x) && x.state != Rdy && !IsPending(x.state) && x.mutexList == tasks[t].mutexList
    requires |lists'| == PRI_MAX
    requires forall p :: 0 <= p < PRI_MAX && p != tasks[t].prio ==> lists'[p] == lists[p]
    requires forall u :: u in lists'[tasks[t].prio] <==> u != t && u in lists[tasks[t].prio]
    ensures KernelOk(tasks[t := x], objects, lists', active, idle)
  {
    ReadyLeave(tasks, lists, lists', t, x);
    WaitersPut(tasks, objects, t, x);
    OwnersPut(tasks, objects, idle, t, x);
  }

  /** A change of one object's body that keeps its type, its wait list
      and, for a mutex, its owner. */
  lemma KernelPutObj(tasks: map<TaskId, Tcb>, objects: map<ObjId, KObject>, lists: seq<seq<TaskId>>,
                     active: TaskId, idle: TaskId, o: ObjId, y: KObject)
    requires KernelOk(tasks, objects, lists, active, idle) && o in objects && ObjOk(y)
    requires y.blocked == objects[o].blocked && y.objType == objects[o].objType
    requires y.body.MutexBody? == objects[o].body.MutexBody?
    requires y.body.MutexBody? ==> y.body.owner == objects[o].body.owner
    ensures KernelOk(tasks, objects[o := y], lists, active, idle)
  {
    var objects' := objects[o := y];
    forall t, m | t in tasks && m in tasks[t].mutexList ensures Held(objects', m, t) {
      assert Held(objects, m, t);
    }
  }

  /** A new object with nobody waiting on it and, if a mutex, no owner. */
  lemma KernelNewObj(tasks: map<TaskId, Tcb>, objects: map<ObjId, KObject>, lists: seq<seq<TaskId>>,
                     active: TaskId, idle: TaskId, o: ObjId, y: KObject)
    requires KernelOk(tasks, objects, lists, active, idle) && o !in objects && ObjOk(y) && y.blocked == []
    requires y.objType == MutexObjType ==> y.body.owner.None?
    ensures KernelOk(tasks, objects[o := y], lists, active, idle)
  {
    var objects' := objects[o := y];
    forall t, m | t in tasks && m in tasks[t].mutexList ensures Held(objects', m, t) {
      assert Held(objects, m, t);
    }
    forall p | p in objects' ensures PriOrdered(tasks, objects'[p].blocked) {
      if p != o { assert PriOrdered(tasks, objects[p].blocked); }
    }
  }

  /** t is ready and no ready task has a higher priority. */
  ghost predicate HighestReady(tasks: map<TaskId, Tcb>, t: TaskId)
  {
    t in tasks && tasks[t].state == Rdy &&
    forall u :: u in tasks && tasks[u].state == Rdy ==> tasks[t].prio <= tasks[u].prio
  }

  // ---------------------------------------------------------------------
  // The kernel's globals.

  class Kernel {
    /** The task control blocks, by handle. */
    var tasks: map<TaskId, Tcb>
    /** The semaphore, queue and mutex control blocks, by handle. */
    var objects: map<ObjId, KObject>
    /** g_ready_queue */
    const rq: ReadyQueue
    /** g_sched_lock */
    var schedLock: nat
    /** g_active_task */
    var active: TaskId
    /** g_idle_task */
    const idle: TaskId
    /** The codes reported to k_err_proc, oldest first. */
    var errors: seq<Status>

    /** The invariant, except that the active task may have just left the
        ready state (between a pend and the reschedule that follows it). */
    ghost predicate Ok()
      reads this, rq, rq.lists
    {
      rq.Valid() && schedLock <= SCHED_MAX_LOCK_COUNT &&
      KernelOk(tasks, objects, rq.lists[..], active, idle)
    }

    /** The invariant between kernel calls: the active task is ready. */
    ghost predicate Valid()
      reads this, rq, rq.lists
    {
      Ok() && tasks[active].state == Rdy
    }

    /** A started kernel on one CPU: the idle task, created with
        krhino_task_create at RHINO_IDLE_PRI, default slice and autorun, is
        the only task and is running; no kernel object exists and the
        scheduler is unlocked. */
    constructor (idleTask: TaskId, idleStackSize: nat)
      ensures Valid() && fresh(rq) && fresh(rq.lists)
      ensures idle == idleTask && active == idleTask
      ensures tasks == map[idleTask := NewTcb(IDLE_PRI, 0, idleStackSize, true, StaticAlloc)]
      ensures objects == map[] && schedLock == 0 && errors == []
    {
      rq := new ReadyQueue();
      idle := idleTask;
      tasks := map[idleTask := NewTcb(IDLE_PRI, 0, idleStackSize, true, StaticAlloc)];
      objects := map[];
      schedLock := 0;
      active := idleTask;
      errors := [];
      new;
      rq.AddTail(idle, IDLE_PRI);
      assert forall p :: 0 <= p < PRI_MAX && p != IDLE_PRI ==> rq.lists[p] == [];
      assert rq.lists[IDLE_PRI] == [idle];
    }
  }

  /** ready_list_add: t joins the ring of priority prio at the tail when
      prio is the active task's priority, at the head otherwise. */
  method ReadyListAdd(k: Kernel, t: TaskId, prio: nat)
    requires k.rq.Valid() && prio < PRI_MAX && t !in k.rq.lists[prio] && k.active in k.tasks
    modifies k.rq, k.rq.lists
    ensures k.rq.Valid()
    ensures k.rq.lists[..] == old(k.rq.lists[..])[prio :=
              if prio == k.tasks[k.active].prio then old(k.rq.lists[prio]) + [t]
              else [t] + old(k.rq.lists[prio])]
  {
    if prio == k.tasks[k.active].prio {
      k.rq.AddTail(t, prio);
    } else {
      k.rq.AddHead(t, prio);
    }
  }

  /** core_sched on one CPU, from task context: unless the scheduler is
      locked, the head of the highest ready ring becomes the active task,
      which is then a ready task of the highest ready priority. */
  method CoreSched(k: Kernel)
    requires k.Ok() && (k.schedLock > 0 ==> k.tasks[k.active].state == Rdy)
    modifies k`active
    ensures k.Valid()
    ensures k.tasks == old(k.tasks) && k.objects == old(k.objects) && k.errors == old(k.errors)
    ensures k.schedLock > 0 ==> k.active == old(k.active)
    ensures k.schedLock == 0 ==>
              k.rq.highestPri < PRI_MAX && k.rq.lists[k.rq.highestPri] != [] &&
              k.active == k.rq.lists[k.rq.highestPri][0] && HighestReady(k.tasks, k.active)
  {
    if k.schedLock > 0 {
      return;
    }
    IdleListed(k.tasks, k.rq.lists[..], k.idle);
    assert IDLE_PRI in k.rq.bitmap;
    var preferred := k.rq.PreferredReadyTask();
    assert InRing(k.tasks, preferred, k.rq.highestPri);
    forall u | u in k.tasks && k.tasks[u].state == Rdy ensures k.rq.highestPri <= k.tasks[u].prio {
      assert u in k.rq.lists[k.tasks[u].prio];
    }
    if preferred != k.active {
      k.active := preferred;
    }
  }

  /** krhino_sched_disable: one more level of scheduler lock, refused at
      SCHED_MAX_LOCK_COUNT. */
  method SchedDisable(k: Kernel) returns (st: Status)
    requires k.Valid()
    modifies k`schedLock
    ensures k.Valid()
    ensures old(k.schedLock) >= SCHED_MAX_LOCK_COUNT ==> st == SchedLockCountOvf && k.schedLock == old(k.schedLock)
    ensures old(k.schedLock) < SCHED_MAX_LOCK_COUNT ==> st == Success && k.schedLock == old(k.schedLock) + 1
  {
    if k.schedLock >= SCHED_MAX_LOCK_COUNT {
      return SchedLockCountOvf;
    }
    k.schedLock := k.schedLock + 1;
    return Success;
  }

  /** krhino_sched_enable: one level of scheduler lock less; the call that
      takes the last level off reschedules. */
  method SchedEnable(k: Kernel) returns (st: Status)
    requires k.Valid()
    modifies k`schedLock, k`active
    ensures k.Valid()
    ensures old(k.schedLock) == 0 ==> st == SchedAlreadyEnabled && k.schedLock == 0 && k.active == old(k.active)
    ensures old(k.schedLock) > 1 ==>
              st == Status.SchedDisable && k.schedLock == old(k.schedLock) - 1 && k.active == old(k.active)
    ensures old(k.schedLock) == 1 ==>
              st == Success && k.schedLock == 0 && HighestReady(k.tasks, k.active)
  {
    if k.schedLock == 0 {
      return SchedAlreadyEnabled;
    }
    k.schedLock := k.schedLock - 1;
    if k.schedLock > 0 {
      return Status.SchedDisable;
    }
    CoreSched(k);
    return Success;
  }

  /** time_slice_update on one CPU, at each tick: the head of the active
      task's ring, if that ring has several tasks and its head is round
      robin, spends one tick of its slice; when the slice is used up the
      head moves to the tail and the slice is refilled. */
  method TimeSliceUpdate(k: Kernel)
    requires k.Valid()
    modifies k`tasks, k.rq.lists
    ensures k.Valid()
    ensures var p := old(k.tasks[k.active].prio);
            var ring := old(k.rq.lists[p]);
            if |ring| <= 1 || ring[0] !in old(k.tasks) || old(k.tasks[ring[0]].policy) == KSCHED_FIFO then
              k.tasks == old(k.tasks) && k.rq.lists[..] == old(k.rq.lists[..])
            else
              var h := old(k.tasks[ring[0]]);
              if h.timeSlice > 1 then
                k.tasks == old(k.tasks)[ring[0] := h.(timeSlice := h.timeSlice - 1)] &&
                k.rq.lists[..] == old(k.rq.lists[..])
              else
                k.tasks == old(k.tasks)[ring[0] := h.(timeSlice := h.timeTotal)] &&
                k.rq.lists[..] == old(k.rq.lists[..])[p := Rotate(ring)]
  {
    var p := k.tasks[k.active].prio;
    var ring := k.rq.lists[p];
    if ring != [] {
      var head := ring[0];
      assert InRing(k.tasks, head, p);
      if k.tasks[head].policy != KSCHED_FIFO && |ring| > 1 {
        if k.tasks[head].timeSlice > 1 {
          SpendTick(k, head);
        } else {
          RoundRobin(k, p);
        }
      }
    }
  }

  /** One tick off the slice of a ready task. */
  method SpendTick(k: Kernel, t: TaskId)
    requires k.Valid() && t in k.tasks && k.tasks[t].timeSlice > 0
    modifies k`tasks
    ensures k.Valid()
    ensures k.tasks == old(k.tasks)[t := old(k.tasks[t]).(timeSlice := old(k.tasks[t].timeSlice) - 1)]
  {
    var x := k.tasks[t];
    x := x.(timeSlice := x.timeSlice - 1);
    KernelPut(k.tasks, k.objects, k.rq.lists[..], k.active, k.idle, t, x);
    k.tasks := k.tasks[t := x];
  }

  /** The head of ring p goes to the tail with a full slice. */
  method RoundRobin(k: Kernel, p: nat)
    requires k.Valid() && p < PRI_MAX && k.rq.lists[p] != []
    modifies k`tasks, k.rq.lists
    ensures k.Valid()
    ensures var h := old(k.rq.lists[p][0]);
            h in old(k.tasks) &&
            k.tasks == old(k.tasks)[h := old(k.tasks[h]).(timeSlice := old(k.tasks[h].timeTotal))] &&
            k.rq.lists[..] == old(k.rq.lists[..])[p := Rotate(old(k.rq.lists[p]))]
  {
    var ring := k.rq.lists[p];
    var head := ring[0];
    assert InRing(k.tasks, head, p);
    ghost var lists0 := k.rq.lists[..];
    k.rq.HeadToTail(p);
    RotateMembers(ring);
    RingsPermuted(k.tasks, lists0, k.rq.lists[..], p);
    var x := k.tasks[head];
    x := x.(timeSlice := x.timeTotal);
    KernelPut(k.tasks, k.objects, k.rq.lists[..], k.active, k.idle, head, x);
    k.tasks := k.tasks[head := x];
  }

  /** Reordering the tasks of one ring keeps the rings exact. */
  lemma RingsPermuted(tasks: map<TaskId, Tcb>, lists: seq<seq<TaskId>>, lists': seq<seq<TaskId>>, p: nat)
    requires ReadyMembers(tasks, lists) && |lists'| == PRI_MAX && p < PRI_MAX
    requires forall q :: 0 <= q < PRI_MAX && q != p ==> lists'[q] == lists[q]
    requires forall u :: u in lists'[p] <==> u in lists[p]
    ensures ReadyMembers(tasks, lists')
  {
    forall q, u | 0 <= q < PRI_MAX && u in lists'[q] ensures InRing(tasks, u, q) {
      assert u in lists[q];
    }
  }
}
