// The mutex of k_mutex.c on one CPU: creation, lock with owner nesting
// and priority inheritance, unlock that hands the mutex to its first
// waiter, and deletion. A mutex is a kernel object with a MutexBody; the
// mutexes a task holds are its mutexList, most recently taken first
// (mutex->mutex_list links them through the mutexes themselves). A NULL
// mutex pointer is None.
module KMutex {
  import opened KObj
  import opened KSched
  import opened KState
  import opened KPend
  import opened KPrio

  // ---------------------------------------------------------------------
  // Ownership changes and the invariant.

  /** No task lists mutex m as held. */
  ghost predicate Unlisted(tasks: map<TaskId, Tcb>, m: ObjId)
  {
    forall u :: u in tasks ==> m !in tasks[u].mutexList
  }

  /** Only the owner of a mutex can list it; so when the mutex has no
      owner, or its owner does not list it, nobody does. */
  lemma UnlistedByOwner(tasks: map<TaskId, Tcb>, objects: map<ObjId, KObject>, idle: TaskId, m: ObjId)
    requires OwnersOk(tasks, objects, idle) && m in objects && objects[m].body.MutexBody?
    requires objects[m].body.owner.Some? && objects[m].body.owner.value in tasks ==>
               m !in tasks[objects[m].body.owner.value].mutexList
    ensures Unlisted(tasks, m)
  {
    forall u | u in tasks ensures m !in tasks[u].mutexList {
      assert m in tasks[u].mutexList ==> Held(objects, m, u);
    }
  }

  /** Task t, other than the idle task, takes mutex m that nobody lists,
      with nesting n, and pushes it on its mutex list. */
  lemma KernelOwn(tasks: map<TaskId, Tcb>, objects: map<ObjId, KObject>, lists: seq<seq<TaskId>>,
                  active: TaskId, idle: TaskId, m: ObjId, t: TaskId, n: nat)
    requires KernelOk(tasks, objects, lists, active, idle) && m in objects && objects[m].objType == MutexObjType
    requires t in tasks && t != idle && Unlisted(tasks, m) && 1 <= n <= MUTEX_NESTED_MAX
    ensures KernelOk(tasks[t := tasks[t].(mutexList := [m] + tasks[t].mutexList)],
                     objects[m := objects[m].(body := MutexBody(Some(t), n))], lists, active, idle)
  {
    var x := tasks[t].(mutexList := [m] + tasks[t].mutexList);
    var tasks' := tasks[t := x];
    var objects' := objects[m := objects[m].(body := MutexBody(Some(t), n))];
    assert m !in tasks[t].mutexList;
    ReadyPut(tasks, lists, t, x);
    WaitersPut(tasks, objects, t, x);
    forall o | o in objects' ensures NoDup(objects'[o].blocked) && PriOrdered(tasks', objects'[o].blocked) {
      assert objects'[o].blocked == objects[o].blocked;
    }
    forall o, u | o in objects' && u in objects'[o].blocked ensures Waiting(tasks', u, o) {
      assert u in objects[o].blocked;
    }
    forall u, p | u in tasks' && p in tasks'[u].mutexList ensures Held(objects', p, u) {
      if p != m {
        assert p in tasks[u].mutexList;
        assert Held(objects, p, u);
      } else {
        assert u == t;
      }
    }
  }

  /** A mutex without waiters that nobody lists loses its owner. */
  lemma KernelDisown(tasks: map<TaskId, Tcb>, objects: map<ObjId, KObject>, lists: seq<seq<TaskId>>,
                     active: TaskId, idle: TaskId, m: ObjId)
    requires KernelOk(tasks, objects, lists, active, idle) && m in objects && objects[m].objType == MutexObjType
    requires objects[m].blocked == [] && Unlisted(tasks, m)
    ensures KernelOk(tasks, objects[m := objects[m].(body := MutexBody(None, 0))], lists, active, idle)
  {
    var objects' := objects[m := objects[m].(body := MutexBody(None, 0))];
    forall u, p | u in tasks && p in tasks[u].mutexList ensures Held(objects', p, u) {
      assert Held(objects, p, u);
    }
    forall o, u | o in objects' && u in objects'[o].blocked ensures Waiting(tasks, u, o) {
      assert u in objects[o].blocked;
    }
  }

  // ---------------------------------------------------------------------
  // The operations.

  /** krhino_mutex_create (mutex_create with a static control block): a
      mutex with no owner, no waiters and no nesting. hasName says whether
      the name pointer is not NULL. */
  method MutexCreate(k: Kernel, mutex: Option<ObjId>, hasName: bool) returns (st: Status)
    requires k.Valid() && (mutex.Some? ==> mutex.value !in k.objects)
    modifies k`objects
    ensures k.Valid()
    ensures st == (if mutex.None? || !hasName then NullPtr else Success)
    ensures st != Success ==> k.objects == old(k.objects)
    ensures st == Success ==>
              k.objects == old(k.objects)[mutex.value := KObject(MutexObjType, [], StaticAlloc, MutexBody(None, 0))]
  {
    if mutex.None? || !hasName {
      return NullPtr;
    }
    var y := KObject(MutexObjType, [], StaticAlloc, MutexBody(None, 0));
    KernelNewObj(k.tasks, k.objects, k.rq.lists[..], k.active, k.idle, mutex.value, y);
    k.objects := k.objects[mutex.value := y];
    return Success;
  }

  /** What krhino_mutex_lock returns when the running task a locks a
      mutex in state x with timeout ticks; Blocked when a has to wait. */
  function LockStatus(x: KObject, a: TaskId, ticks: nat, schedLock: nat): Status
    requires x.objType == MutexObjType ==> x.body.MutexBody?
  {
    if x.objType != MutexObjType then KobjTypeErr
    else if x.body.owner == Some(a) then
      if x.body.nested == MUTEX_NESTED_MAX then MutexNestedOvf else MutexOwnerNested
    else if x.body.owner.None? then Success
    else if ticks == NO_WAIT then NoPendWait
    else if schedLock > 0 then Status.SchedDisable
    else Blocked
  }

  /** The state krhino_mutex_lock of mutex m by task a leaves, from
      (tasks0, objects0, errors0, lists0, a) to (tasks, objects, errors,
      lists, active), for each status st it returns. */
  ghost predicate LockOutcome(tasks0: map<TaskId, Tcb>, objects0: map<ObjId, KObject>, errors0: seq<Status>,
                              lists0: seq<seq<TaskId>>, a: TaskId, m: ObjId, st: Status,
                              tasks: map<TaskId, Tcb>, objects: map<ObjId, KObject>, errors: seq<Status>,
                              lists: seq<seq<TaskId>>, active: TaskId)
  {
    m in objects0 && a in tasks0 &&
    var x := objects0[m];
    var same := tasks == tasks0 && active == a && lists == lists0;
    (st in {KobjTypeErr, NoPendWait, Status.SchedDisable} ==> same && objects == objects0 && errors == errors0) &&
    (st == MutexNestedOvf ==> same && objects == objects0 && errors == errors0 + [MutexNestedOvf]) &&
    (st == MutexOwnerNested ==>
       same && errors == errors0 && x.body.MutexBody? &&
       objects == objects0[m := x.(body := x.body.(nested := x.body.nested + 1))]) &&
    (st == Success ==>
       active == a && lists == lists0 && errors == errors0 &&
       objects == objects0[m := x.(body := MutexBody(Some(a), 1))] &&
       tasks == tasks0[a := tasks0[a].(mutexList := [m] + tasks0[a].mutexList)]) &&
    (st == Blocked ==>
       x.body.MutexBody? && x.body.owner.Some? &&
       BlockedOutcome(tasks0, objects0, errors0, a, m, tasks, objects, errors) && HighestReady(tasks, active))
  }

  /** The blocking path of krhino_mutex_lock of m by task a, from (tasks0,
      objects0, errors0) to (tasks, objects, errors): apart from
      priorities, a has become PEND on m and nothing else about a task
      differs; a has joined m's wait list and the wait lists keep their
      members otherwise. The owner o inherits a's priority when that is
      higher (task_pri_change): a ready, sleeping or suspended owner takes
      it; one never started or deleted keeps its own and
      RHINO_INV_TASK_STATE is reported; a pending owner starts a chain of
      changes, which may end in that report. */
  ghost predicate BlockedOutcome(tasks0: map<TaskId, Tcb>, objects0: map<ObjId, KObject>, errors0: seq<Status>,
                                 a: TaskId, m: ObjId,
                                 tasks: map<TaskId, Tcb>, objects: map<ObjId, KObject>, errors: seq<Status>)
  {
    a in tasks0 && m in objects0 &&
    var x := objects0[m];
    x.body.MutexBody? && x.body.owner.Some? && x.body.owner.value in tasks0 &&
    var o := x.body.owner.value;
    var inherits := tasks0[a].prio < tasks0[o].prio;
    PrioOnly(tasks0[a := tasks0[a].(state := Pend, blkObj := Some(m))], tasks) &&
    OrderOnly(objects0[m := x.(blocked := x.blocked + [a])], objects) &&
    (errors == errors0 || errors == errors0 + [InvTaskState]) &&
    (tasks0[o].state in {Rdy, Suspended, Sleep, SleepSuspended} ==>
       tasks[o].prio == (if inherits then tasks0[a].prio else tasks0[o].prio) && errors == errors0) &&
    (tasks0[o].state in {Seed, Deleted} ==>
       tasks[o].prio == tasks0[o].prio && errors == if inherits then errors0 + [InvTaskState] else errors0)
  }

  /** krhino_mutex_lock by the running task a, which may be the idle task
      only when the call neither takes the mutex nor waits: the owner
      locking again nests (RHINO_MUTEX_NESTED_OVF, reported to
      k_err_proc, at the maximum); a free mutex is taken with nesting 1
      and pushed on a's mutex list; otherwise, unless a may not wait, the
      owner inherits a's priority if that is higher and a waits on the
      mutex while the scheduler picks another task. */
  method MutexLock(k: Kernel, mutex: Option<ObjId>, ticks: nat) returns (st: Status)
    requires k.Valid() && (mutex.Some? ==> mutex.value in k.objects)
    requires mutex.Some? && k.active == k.idle ==>
               LockStatus(k.objects[mutex.value], k.active, ticks, k.schedLock) !in {Success, Blocked}
    modifies k`tasks, k`objects, k`errors, k`active, k.rq, k.rq.lists
    ensures k.Valid()
    ensures mutex.None? ==>
              st == NullPtr && k.tasks == old(k.tasks) && k.objects == old(k.objects) &&
              k.errors == old(k.errors) && k.active == old(k.active) && k.rq.lists[..] == old(k.rq.lists[..])
    ensures mutex.Some? ==>
              st == LockStatus(old(k.objects[mutex.value]), old(k.active), ticks, k.schedLock) &&
              LockOutcome(old(k.tasks), old(k.objects), old(k.errors), old(k.rq.lists[..]), old(k.active),
                          mutex.value, st, k.tasks, k.objects, k.errors, k.rq.lists[..], k.active)
  {
    if mutex.None? {
      return NullPtr;
    }
    st := LockObj(k, mutex.value, ticks);
  }

  /** krhino_mutex_lock past its NULL check. */
  method LockObj(k: Kernel, m: ObjId, ticks: nat) returns (st: Status)
    requires k.Valid() && m in k.objects
    requires k.active == k.idle ==> LockStatus(k.objects[m], k.active, ticks, k.schedLock) !in {Success, Blocked}
    modifies k`tasks, k`objects, k`errors, k`active, k.rq, k.rq.lists
    ensures k.Valid()
    ensures st == LockStatus(old(k.objects[m]), old(k.active), ticks, k.schedLock)
    ensures LockOutcome(old(k.tasks), old(k.objects), old(k.errors), old(k.rq.lists[..]), old(k.active),
                        m, st, k.tasks, k.objects, k.errors, k.rq.lists[..], k.active)
  {
    var x := k.objects[m];
    if x.objType != MutexObjType {
      return KobjTypeErr;
    }
    if x.body.owner == Some(k.active) {
      st := Nest(k, m);
      return;
    }
    if x.body.owner.None? {
      LockFree(k, m);
      return Success;
    }
    if ticks == NO_WAIT {
      return NoPendWait;
    }
    if k.schedLock > 0 {
      return Status.SchedDisable;
    }
    ghost var tasks0, objects0, errors0, lists0, a := k.tasks, k.objects, k.errors, k.rq.lists[..], k.active;
    LockBlock(k, m);
    assert BlockedOutcome(tasks0, objects0, errors0, a, m, k.tasks, k.objects, k.errors);
    return Blocked;
  }

  /** Locking a mutex nobody owns: the running task takes it. */
  method LockFree(k: Kernel, m: ObjId)
    requires k.Valid() && k.active != k.idle && m in k.objects && k.objects[m].objType == MutexObjType
    requires k.objects[m].body.MutexBody? && k.objects[m].body.owner.None?
    modifies k`tasks, k`objects
    ensures k.Valid()
    ensures LockOutcome(old(k.tasks), old(k.objects), old(k.errors), old(k.rq.lists[..]), old(k.active),
                        m, Success, k.tasks, k.objects, k.errors, k.rq.lists[..], k.active)
  {
    UnlistedByOwner(k.tasks, k.objects, k.idle, m);
    Own(k, k.active, m);
  }

  /** The owner of mutex m locking it again: one more nesting level, or
      RHINO_MUTEX_NESTED_OVF, reported to k_err_proc, at the maximum. */
  method Nest(k: Kernel, m: ObjId) returns (st: Status)
    requires k.Valid() && m in k.objects && k.objects[m].objType == MutexObjType
    requires k.objects[m].body.MutexBody? && k.objects[m].body.owner == Some(k.active)
    modifies k`objects, k`errors
    ensures k.Valid()
    ensures st == LockStatus(old(k.objects[m]), k.active, 0, 0)
    ensures LockOutcome(old(k.tasks), old(k.objects), old(k.errors), old(k.rq.lists[..]), old(k.active),
                        m, st, k.tasks, k.objects, k.errors, k.rq.lists[..], k.active)
    ensures st == MutexNestedOvf ==> k.objects == old(k.objects) && k.errors == old(k.errors) + [MutexNestedOvf]
    ensures st == MutexOwnerNested ==>
              k.errors == old(k.errors) &&
              k.objects == old(k.objects)[m := old(k.objects[m]).(body := old(k.objects[m]).body.(nested := old(k.objects[m]).body.nested + 1))]
  {
    var x := k.objects[m];
    if x.body.nested == MUTEX_NESTED_MAX {
      k.errors := k.errors + [MutexNestedOvf];
      return MutexNestedOvf;
    }
    var y := x.(body := x.body.(nested := x.body.nested + 1));
    KernelPutObj(k.tasks, k.objects, k.rq.lists[..], k.active, k.idle, m, y);
    k.objects := k.objects[m := y];
    return MutexOwnerNested;
  }

  /** Task t takes mutex m, which nobody lists, with nesting 1 and pushes
      it on its mutex list. */
  method Own(k: Kernel, t: TaskId, m: ObjId)
    requires k.Valid() && m in k.objects && k.objects[m].objType == MutexObjType
    requires t in k.tasks && t != k.idle && Unlisted(k.tasks, m)
    modifies k`tasks, k`objects
    ensures k.Valid()
    ensures k.tasks == old(k.tasks)[t := old(k.tasks[t]).(mutexList := [m] + old(k.tasks[t].mutexList))]
    ensures k.objects == old(k.objects)[m := old(k.objects[m]).(body := MutexBody(Some(t), 1))]
  {
    KernelOwn(k.tasks, k.objects, k.rq.lists[..], k.active, k.idle, m, t, 1);
    k.tasks := k.tasks[t := k.tasks[t].(mutexList := [m] + k.tasks[t].mutexList)];
    k.objects := k.objects[m := k.objects[m].(body := MutexBody(Some(t), 1))];
  }

  /** The blocking path of krhino_mutex_lock: the owner inherits the
      running task's priority when that is higher (task_pri_change), the
      running task waits on m (pend_to_blk_obj) and the scheduler runs. */
  method LockBlock(k: Kernel, m: ObjId)
    requires k.Valid() && k.active != k.idle && k.schedLock == 0 && m in k.objects
    requires k.objects[m].objType == MutexObjType && k.objects[m].body.MutexBody?
    requires k.objects[m].body.owner.Some? && k.objects[m].body.owner.value != k.active
    modifies k`tasks, k`objects, k`errors, k`active, k.rq, k.rq.lists
    ensures k.Valid()
    ensures BlockedOutcome(old(k.tasks), old(k.objects), old(k.errors), old(k.active), m, k.tasks, k.objects, k.errors)
    ensures HighestReady(k.tasks, k.active)
  {
    var a := k.active;
    var o := k.objects[m].body.owner.value;
    ghost var tasks0, objects0, errors0 := k.tasks, k.objects, k.errors;
    assert o in k.tasks && o != k.idle;
    assert TcbOk(k.tasks[a]);
    var pri := k.tasks[a].prio;
    Inherit(k, o, pri);
    ghost var tasks1, objects1, errors1 := k.tasks, k.objects, k.errors;
    assert InheritOutcome(tasks0, objects0, errors0, o, pri, tasks1, objects1, errors1);
    assert ObjOk(k.objects[m]);
    assert MayWait(k.objects[m]);
    WaitOn(k, m);
    InheritThenPend(tasks0, objects0, errors0, a, m, o, pri, tasks1, objects1, errors1, k.tasks, k.objects, k.errors);
  }

  /** The running task a waits on mutex m (pend_to_blk_obj) and the
      scheduler picks the highest ready task. */
  method WaitOn(k: Kernel, m: ObjId)
    requires k.Valid() && k.active != k.idle && k.schedLock == 0 && m in k.objects
    requires k.objects[m].objType == MutexObjType && MayWait(k.objects[m])
    modifies k`tasks, k`objects, k`active, k.rq, k.rq.lists
    ensures k.Valid() && HighestReady(k.tasks, k.active) && k.errors == old(k.errors)
    ensures var a := old(k.active);
            k.tasks == old(k.tasks)[a := old(k.tasks[a]).(state := Pend, blkObj := Some(m))] &&
            k.objects == old(k.objects)[m := old(k.objects[m]).(blocked := PendInsert(k.tasks, old(k.objects[m].blocked), a, old(k.tasks[a].prio)))]
  {
    PendToBlkObj(k, m);
    assert k.errors == old(k.errors);
    CoreSched(k);
  }

  /** Inherit by the owner o of m and then a's pend on m give
      BlockedOutcome. */
  lemma InheritThenPend(tasks0: map<TaskId, Tcb>, objects0: map<ObjId, KObject>, errors0: seq<Status>,
                        a: TaskId, m: ObjId, o: TaskId, pri: nat,
                        tasks1: map<TaskId, Tcb>, objects1: map<ObjId, KObject>, errors1: seq<Status>,
                        tasks2: map<TaskId, Tcb>, objects2: map<ObjId, KObject>, errors2: seq<Status>)
    requires a in tasks0 && m in objects0 && objects0[m].body.MutexBody? && objects0[m].body.owner == Some(o)
    requires o in tasks0 && o != a && pri == tasks0[a].prio
    requires InheritOutcome(tasks0, objects0, errors0, o, pri, tasks1, objects1, errors1)
    requires a in tasks1 && m in objects1
    requires tasks2 == tasks1[a := tasks1[a].(state := Pend, blkObj := Some(m))]
    requires objects2 == objects1[m := objects1[m].(blocked := PendInsert(tasks2, objects1[m].blocked, a, tasks1[a].prio))]
    requires errors2 == errors1
    ensures BlockedOutcome(tasks0, objects0, errors0, a, m, tasks2, objects2, errors2)
  {
    PendFrame(tasks0, objects0, a, m, tasks1, objects1, tasks2, objects2);
  }

  /** Task a becoming PEND on m after priority-only and reorder-only
      changes (tasks0 to tasks1, objects0 to objects1) differs from a
      becoming PEND on m at the start only in priorities and order. */
  lemma PendFrame(tasks0: map<TaskId, Tcb>, objects0: map<ObjId, KObject>, a: TaskId, m: ObjId,
                  tasks1: map<TaskId, Tcb>, objects1: map<ObjId, KObject>,
                  tasks2: map<TaskId, Tcb>, objects2: map<ObjId, KObject>)
    requires a in tasks0 && m in objects0 && PrioOnly(tasks0, tasks1) && OrderOnly(objects0, objects1)
    requires tasks2 == tasks1[a := tasks1[a].(state := Pend, blkObj := Some(m))]
    requires m in objects2 && objects2 == objects1[m := objects1[m].(blocked := objects2[m].blocked)]
    requires forall u :: u in objects2[m].blocked <==> u == a || u in objects1[m].blocked
    ensures PrioOnly(tasks0[a := tasks0[a].(state := Pend, blkObj := Some(m))], tasks2)
    ensures OrderOnly(objects0[m := objects0[m].(blocked := objects0[m].blocked + [a])], objects2)
    ensures forall u :: u in tasks0 && u != a ==> tasks2[u].prio == tasks1[u].prio
  {
  }

  /** What task_pri_change of o to pri, when pri is higher than o's
      priority, leaves from (tasks0, objects0, errors0) to (tasks,
      objects, errors): only priorities and the order of wait lists
      change; a ready, sleeping or suspended o takes pri; one never
      started or deleted keeps its own and RHINO_INV_TASK_STATE is
      reported; a pending o starts a chain of changes, which may end in
      that report. */
  ghost predicate InheritOutcome(tasks0: map<TaskId, Tcb>, objects0: map<ObjId, KObject>, errors0: seq<Status>,
                                 o: TaskId, pri: nat,
                                 tasks: map<TaskId, Tcb>, objects: map<ObjId, KObject>, errors: seq<Status>)
  {
    o in tasks0 &&
    var p := tasks0[o].prio;
    PrioOnly(tasks0, tasks) && OrderOnly(objects0, objects) &&
    (errors == errors0 || errors == errors0 + [InvTaskState]) &&
    (tasks0[o].state in {Rdy, Suspended, Sleep, SleepSuspended} ==>
       tasks[o].prio == (if pri < p then pri else p) && errors == errors0) &&
    (tasks0[o].state in {Seed, Deleted} ==>
       tasks[o].prio == p && errors == if pri < p then errors0 + [InvTaskState] else errors0)
  }

  /** The owner o of a mutex takes priority pri when that is higher than
      its own (task_pri_change, which follows a chain of pending owners). */
  method Inherit(k: Kernel, o: TaskId, pri: nat)
    requires k.Valid() && o in k.tasks && o != k.idle && pri < PRI_MAX
    modifies k`tasks, k`objects, k`errors, k.rq, k.rq.lists
    ensures k.Valid()
    ensures InheritOutcome(old(k.tasks), old(k.objects), old(k.errors), o, pri, k.tasks, k.objects, k.errors)
  {
    if pri < k.tasks[o].prio {
      var _ := TaskPriChange(k, o, pri, |k.tasks|);
    }
  }

  /** What krhino_mutex_unlock returns when the running task a unlocks a
      mutex in state x. */
  function UnlockStatus(x: KObject, a: TaskId): Status
    requires x.objType == MutexObjType ==> x.body.MutexBody?
  {
    if x.objType != MutexObjType then KobjTypeErr
    else if x.body.owner != Some(a) then MutexNotReleasedByOwner
    else if x.body.nested > 1 then MutexOwnerNested
    else Success
  }

  /** The base priority of t limited by the first waiters of the mutexes
      it holds other than m: the priority mutex_release gives t when it
      lets m go. */
  ghost function ReleasedPri(tasks: map<TaskId, Tcb>, objects: map<ObjId, KObject>, t: TaskId, m: ObjId): nat
    requires t in tasks
  {
    MinHeadPri(tasks, objects, Without(tasks[t].mutexList, Some(m)), tasks[t].bPrio)
  }

  /** The state krhino_mutex_unlock of mutex m by task a leaves, from
      (tasks0, objects0, errors0, lists0, a) to (tasks, objects, errors,
      lists, active), for each status st it returns. */
  ghost predicate UnlockOutcome(tasks0: map<TaskId, Tcb>, objects0: map<ObjId, KObject>, errors0: seq<Status>,
                                lists0: seq<seq<TaskId>>, a: TaskId, m: ObjId, st: Status,
                                tasks: map<TaskId, Tcb>, objects: map<ObjId, KObject>, errors: seq<Status>,
                                lists: seq<seq<TaskId>>, active: TaskId, schedLock: nat)
  {
    m in objects0 && a in tasks0 && errors == errors0 &&
    var x := objects0[m];
    var same := tasks == tasks0 && active == a && lists == lists0;
    (st in {KobjTypeErr, MutexNotReleasedByOwner} ==> same && objects == objects0) &&
    (st == MutexOwnerNested ==>
       same && x.body.MutexBody? && x.body.nested > 0 && objects == objects0[m := x.(body := x.body.(nested := x.body.nested - 1))]) &&
    (st == Success ==>
       var released := tasks0[a].(mutexList := Without(tasks0[a].mutexList, Some(m)),
                                  prio := ReleasedPri(tasks0, objects0, a, m));
       (x.blocked == [] ==>
          tasks == tasks0[a := released] && objects == objects0[m := x.(body := MutexBody(None, 0))] && active == a) &&
       (x.blocked != [] ==>
          var h := x.blocked[0];
          h in tasks0 && IsPending(tasks0[h].state) &&
          tasks == tasks0[a := released][h := EndedTcb(tasks0[h], BlkFinish).(mutexList := [m] + tasks0[h].mutexList)] &&
          objects == objects0[m := x.(blocked := x.blocked[1..], body := MutexBody(Some(h), 1))] &&
          (schedLock == 0 ==> HighestReady(tasks, active))))
  }

  /** krhino_mutex_unlock by the running task a: only the owner may
      unlock; a nested lock only loses one level. The last level lets the
      mutex go (mutex_release: a drops it from its list and falls back to
      ReleasedPri); with nobody waiting the mutex is then free, otherwise
      its first waiter is woken (pend_task_wakeup), takes it with nesting
      1, and the scheduler runs. */
  method MutexUnlock(k: Kernel, mutex: Option<ObjId>) returns (st: Status)
    requires k.Valid() && (mutex.Some? ==> mutex.value in k.objects)
    modifies k`tasks, k`objects, k`errors, k`active, k.rq, k.rq.lists
    ensures k.Valid()
    ensures mutex.None? ==>
              st == NullPtr && k.tasks == old(k.tasks) && k.objects == old(k.objects) &&
              k.errors == old(k.errors) && k.active == old(k.active) && k.rq.lists[..] == old(k.rq.lists[..])
    ensures mutex.Some? ==>
              st == UnlockStatus(old(k.objects[mutex.value]), old(k.active)) &&
              UnlockOutcome(old(k.tasks), old(k.objects), old(k.errors), old(k.rq.lists[..]), old(k.active),
                            mutex.value, st, k.tasks, k.objects, k.errors, k.rq.lists[..], k.active, k.schedLock)
  {
    if mutex.None? {
      return NullPtr;
    }
    st := UnlockObj(k, mutex.value);
  }

  /** krhino_mutex_unlock past its NULL check. */
  method UnlockObj(k: Kernel, m: ObjId) returns (st: Status)
    requires k.Valid() && m in k.objects
    modifies k`tasks, k`objects, k`errors, k`active, k.rq, k.rq.lists
    ensures k.Valid()
    ensures st == UnlockStatus(old(k.objects[m]), old(k.active))
    ensures UnlockOutcome(old(k.tasks), old(k.objects), old(k.errors), old(k.rq.lists[..]), old(k.active),
                          m, st, k.tasks, k.objects, k.errors, k.rq.lists[..], k.active, k.schedLock)
  {
    var x := k.objects[m];
    if x.objType != MutexObjType {
      return KobjTypeErr;
    }
    if x.body.owner != Some(k.active) {
      return MutexNotReleasedByOwner;
    }
    if x.body.nested > 1 {
      var y := x.(body := x.body.(nested := x.body.nested - 1));
      KernelPutObj(k.tasks, k.objects, k.rq.lists[..], k.active, k.idle, m, y);
      k.objects := k.objects[m := y];
      return MutexOwnerNested;
    }
    UnlockLast(k, m);
    return Success;
  }

  /** The last level of krhino_mutex_unlock by the owner, the running
      task: mutex_release, then the mutex is freed or handed over. The
      model writes the mutex's new owner and count once, after
      mutex_release, which does not read them. */
  method UnlockLast(k: Kernel, m: ObjId)
    requires k.Valid() && m in k.objects && k.objects[m].objType == MutexObjType
    requires k.objects[m].body.MutexBody? && k.objects[m].body.owner == Some(k.active)
    modifies k`tasks, k`objects, k`errors, k`active, k.rq, k.rq.lists
    ensures k.Valid()
    ensures UnlockOutcome(old(k.tasks), old(k.objects), old(k.errors), old(k.rq.lists[..]), old(k.active),
                          m, Success, k.tasks, k.objects, k.errors, k.rq.lists[..], k.active, k.schedLock)
  {
    if k.objects[m].blocked == [] {
      ReleaseFree(k, m);
    } else {
      ReleaseToWaiter(k, m);
    }
  }

  /** UnlockLast with nobody waiting: the mutex is left free. */
  method ReleaseFree(k: Kernel, m: ObjId)
    requires k.Valid() && m in k.objects && k.objects[m].objType == MutexObjType && k.objects[m].blocked == []
    requires k.objects[m].body.MutexBody? && k.objects[m].body.owner == Some(k.active)
    modifies k`tasks, k`objects, k`errors, k`active, k.rq, k.rq.lists
    ensures k.Valid()
    ensures UnlockOutcome(old(k.tasks), old(k.objects), old(k.errors), old(k.rq.lists[..]), old(k.active),
                          m, Success, k.tasks, k.objects, k.errors, k.rq.lists[..], k.active, k.schedLock)
  {
    assert k.active != k.idle;
    ReleaseRunning(k, m);
    UnlistedByOwner(k.tasks, k.objects, k.idle, m);
    KernelDisown(k.tasks, k.objects, k.rq.lists[..], k.active, k.idle, m);
    k.objects := k.objects[m := k.objects[m].(body := MutexBody(None, 0))];
  }

  /** UnlockLast with waiters: the first one takes the mutex and the
      scheduler runs. */
  method ReleaseToWaiter(k: Kernel, m: ObjId)
    requires k.Valid() && m in k.objects && k.objects[m].objType == MutexObjType && k.objects[m].blocked != []
    requires k.objects[m].body.MutexBody? && k.objects[m].body.owner == Some(k.active)
    modifies k`tasks, k`objects, k`errors, k`active, k.rq, k.rq.lists
    ensures k.Valid()
    ensures UnlockOutcome(old(k.tasks), old(k.objects), old(k.errors), old(k.rq.lists[..]), old(k.active),
                          m, Success, k.tasks, k.objects, k.errors, k.rq.lists[..], k.active, k.schedLock)
  {
    ghost var tasks0, objects0, errors0, lists0, a := k.tasks, k.objects, k.errors, k.rq.lists[..], k.active;
    ghost var tasks1 := tasks0[a := tasks0[a].(mutexList := Without(tasks0[a].mutexList, Some(m)),
                                               prio := ReleasedPri(tasks0, objects0, a, m))];
    ReleaseThenHand(k, m);
    CoreSched(k);
    HandedOver(tasks0, objects0, errors0, lists0, a, m, tasks1, k.tasks, k.objects, k.errors, k.rq.lists[..], k.active, k.schedLock);
  }

  /** The unlock with waiters up to the reschedule: the running task
      releases m and its first waiter takes it. */
  method ReleaseThenHand(k: Kernel, m: ObjId)
    requires k.Valid() && m in k.objects && k.objects[m].objType == MutexObjType && k.objects[m].blocked != []
    requires k.objects[m].body.MutexBody? && k.objects[m].body.owner == Some(k.active)
    modifies k`tasks, k`objects, k`errors, k.rq, k.rq.lists
    ensures k.Ok() && (k.schedLock > 0 ==> k.tasks[k.active].state == Rdy) && k.errors == old(k.errors)
    ensures var a := k.active;
            var x := old(k.objects[m]);
            var h := x.blocked[0];
            var tasks1 := old(k.tasks)[a := old(k.tasks[a]).(mutexList := Without(old(k.tasks[a].mutexList), Some(m)),
                                                             prio := ReleasedPri(old(k.tasks), old(k.objects), a, m))];
            h != a && h in old(k.tasks) && IsPending(old(k.tasks[h].state)) &&
            k.tasks == tasks1[h := EndedTcb(tasks1[h], BlkFinish).(mutexList := [m] + tasks1[h].mutexList)] &&
            k.objects == old(k.objects)[m := x.(blocked := x.blocked[1..], body := MutexBody(Some(h), 1))]
  {
    assert k.active != k.idle;
    ghost var tasks0, objects0, a := k.tasks, k.objects, k.active;
    ghost var h := k.objects[m].blocked[0];
    assert Waiting(tasks0, h, m) && h != a;
    ReleaseRunning(k, m);
    ghost var tasks1 := k.tasks;
    assert tasks1 == tasks0[a := tasks0[a].(mutexList := Without(tasks0[a].mutexList, Some(m)),
                                            prio := ReleasedPri(tasks0, objects0, a, m))];
    assert k.objects == objects0 && Waiting(tasks1, h, m);
    HandOver(k, m);
  }

  /** Releasing m from the running task a (tasks0 to tasks1) and then
      handing it to its first waiter is the final unlock with waiters of
      UnlockOutcome. */
  lemma HandedOver(tasks0: map<TaskId, Tcb>, objects0: map<ObjId, KObject>, errors0: seq<Status>,
                   lists0: seq<seq<TaskId>>, a: TaskId, m: ObjId, tasks1: map<TaskId, Tcb>,
                   tasks: map<TaskId, Tcb>, objects: map<ObjId, KObject>, errors: seq<Status>,
                   lists: seq<seq<TaskId>>, active: TaskId, schedLock: nat)
    requires m in objects0 && a in tasks0 && errors == errors0 && objects0[m].blocked != []
    requires var h := objects0[m].blocked[0]; h != a && h in tasks0 && IsPending(tasks0[h].state)
    requires tasks1 == tasks0[a := tasks0[a].(mutexList := Without(tasks0[a].mutexList, Some(m)),
                                              prio := ReleasedPri(tasks0, objects0, a, m))]
    requires var x := objects0[m];
             var h := x.blocked[0];
             tasks == tasks1[h := EndedTcb(tasks1[h], BlkFinish).(mutexList := [m] + tasks1[h].mutexList)] &&
             objects == objects0[m := x.(blocked := x.blocked[1..], body := MutexBody(Some(h), 1))]
    requires schedLock == 0 ==> HighestReady(tasks, active)
    ensures UnlockOutcome(tasks0, objects0, errors0, lists0, a, m, Success, tasks, objects, errors, lists, active, schedLock)
  {
    assert tasks1[objects0[m].blocked[0]] == tasks0[objects0[m].blocked[0]];
  }

  /** mutex_release for the running task, which is ready: it drops m from
      its list and takes ReleasedPri by task_pri_change when that
      differs from its priority. */
  method ReleaseRunning(k: Kernel, m: ObjId)
    requires k.Valid() && k.active != k.idle
    modifies k`tasks, k`objects, k`errors, k.rq, k.rq.lists
    ensures k.Valid() && k.errors == old(k.errors) && k.objects == old(k.objects)
    ensures var a := k.active;
            k.tasks == old(k.tasks)[a := old(k.tasks[a]).(mutexList := Without(old(k.tasks[a].mutexList), Some(m)),
                                                          prio := ReleasedPri(old(k.tasks), old(k.objects), a, m))]
  {
    var a := k.active;
    ghost var tasks0 := k.tasks;
    ghost var x := tasks0[a].(mutexList := Without(tasks0[a].mutexList, Some(m)));
    var newPri := MutexPriLook(k, a, Some(m));
    KernelUnlink(tasks0, k.objects, k.rq.lists[..], k.active, k.idle, a, Some(m));
    assert TcbOk(tasks0[a]);
    ReleasedPriIs(tasks0, k.objects, a, m);
    ghost var tasks1 := k.tasks;
    assert tasks1 == tasks0[a := x] && tasks1[a] == x;
    ReadyPri(k, a, newPri);
    Overwrite(tasks0, a, x, x.(prio := newPri));
  }

  /** A ready task other than the idle task takes priority pri
      (task_pri_change, when pri differs from its priority). */
  method ReadyPri(k: Kernel, t: TaskId, pri: nat)
    requires k.Valid() && t in k.tasks && t != k.idle && k.tasks[t].state == Rdy && pri < PRI_MAX
    modifies k`tasks, k`objects, k`errors, k.rq, k.rq.lists
    ensures k.Valid() && k.errors == old(k.errors) && k.objects == old(k.objects)
    ensures k.tasks == old(k.tasks)[t := old(k.tasks[t]).(prio := pri)]
  {
    if pri != k.tasks[t].prio {
      var _ := TaskPriChange(k, t, pri, |k.tasks|);
    } else {
      assert k.tasks == k.tasks[t := k.tasks[t].(prio := pri)];
    }
  }

  /** ReleasedPri is what mutex_pri_look finds once m has left the list,
      and it is a valid priority. */
  lemma ReleasedPriIs(tasks: map<TaskId, Tcb>, objects: map<ObjId, KObject>, t: TaskId, m: ObjId)
    requires t in tasks && tasks[t].bPrio < PRI_MAX
    ensures var x := tasks[t].(mutexList := Without(tasks[t].mutexList, Some(m)));
            MinHeadPri(tasks[t := x], objects, x.mutexList, x.bPrio) == ReleasedPri(tasks, objects, t, m) < PRI_MAX
  {
    var x := tasks[t].(mutexList := Without(tasks[t].mutexList, Some(m)));
    PrioOfOnlyPrio(tasks, t, x);
    MinHeadPriFrame(tasks, tasks[t := x], objects, x.mutexList, x.bPrio);
  }

  /** The first waiter h of m, whose owner does not list it any more, is
      woken (pend_task_wakeup) and takes m with nesting 1. */
  method HandOver(k: Kernel, m: ObjId)
    requires k.Valid() && m in k.objects && k.objects[m].objType == MutexObjType && k.objects[m].blocked != []
    requires k.objects[m].body.MutexBody? && k.objects[m].body.owner.Some?
    requires k.objects[m].body.owner.value in k.tasks ==> m !in k.tasks[k.objects[m].body.owner.value].mutexList
    modifies k`tasks, k`objects, k.rq, k.rq.lists
    ensures k.Ok() && (k.schedLock > 0 ==> k.tasks[k.active].state == Rdy)
    ensures var x := old(k.objects[m]);
            var h := x.blocked[0];
            h in old(k.tasks) && IsPending(old(k.tasks[h].state)) &&
            k.tasks == old(k.tasks)[h := EndedTcb(old(k.tasks[h]), BlkFinish).(mutexList := [m] + old(k.tasks[h].mutexList))] &&
            k.objects == old(k.objects)[m := x.(blocked := x.blocked[1..], body := MutexBody(Some(h), 1))]
  {
    var x := k.objects[m];
    var h := x.blocked[0];
    ghost var tasks0, objects0 := k.tasks, k.objects;
    assert Waiting(k.tasks, h, m);
    assert h != k.idle;
    UnlistedByOwner(k.tasks, k.objects, k.idle, m);
    EndFirst(k, m, BlkFinish);
    ghost var y := EndedTcb(tasks0[h], BlkFinish);
    ghost var z := x.(blocked := x.blocked[1..]);
    assert k.tasks == tasks0[h := y] && k.tasks[h] == y;
    assert k.objects == objects0[m := z] && k.objects[m] == z;
    Own(k, h, m);
    Overwrite(tasks0, h, y, y.(mutexList := [m] + y.mutexList));
    Overwrite(objects0, m, z, z.(body := MutexBody(Some(h), 1)));
  }

  /** MinHeadPri reads an object only through whether it has waiters and
      which waiter is first. */
  lemma {:induction false} MinHeadPriObjects(tasks: map<TaskId, Tcb>, objects: map<ObjId, KObject>,
                                             objects': map<ObjId, KObject>, ms: seq<ObjId>, pri: nat)
    requires forall i :: 0 <= i < |ms| ==> Waited(objects', ms[i]) == Waited(objects, ms[i])
    requires forall i :: 0 <= i < |ms| && Waited(objects, ms[i]) && Waited(objects', ms[i]) ==> objects'[ms[i]].blocked[0] == objects[ms[i]].blocked[0]
    ensures MinHeadPri(tasks, objects', ms, pri) == MinHeadPri(tasks, objects, ms, pri)
  {
    if ms != [] {
      MinHeadPriObjects(tasks, objects, objects', ms[..|ms| - 1], pri);
    }
  }

  /** Locking a free mutex and unlocking it again, with nobody waiting in
      between, leaves every object and the error log as they were; the
      task's mutex list is back as well, and its priority is its base
      priority limited by the first waiters of the mutexes it still
      holds. */
  lemma LockThenUnlock(tasks0: map<TaskId, Tcb>, objects0: map<ObjId, KObject>, errors0: seq<Status>,
                       lists0: seq<seq<TaskId>>, a: TaskId, m: ObjId,
                       tasks1: map<TaskId, Tcb>, objects1: map<ObjId, KObject>, errors1: seq<Status>,
                       lists1: seq<seq<TaskId>>, active1: TaskId,
                       tasks2: map<TaskId, Tcb>, objects2: map<ObjId, KObject>, errors2: seq<Status>,
                       lists2: seq<seq<TaskId>>, active2: TaskId, schedLock: nat)
    requires m in objects0 && objects0[m].blocked == [] && objects0[m].body == MutexBody(None, 0)
    requires a in tasks0 && m !in tasks0[a].mutexList
    requires LockOutcome(tasks0, objects0, errors0, lists0, a, m, Success, tasks1, objects1, errors1, lists1, active1)
    requires UnlockOutcome(tasks1, objects1, errors1, lists1, a, m, Success,
                           tasks2, objects2, errors2, lists2, active2, schedLock)
    ensures objects2 == objects0 && errors2 == errors0 && active2 == a
    ensures tasks2 == tasks0[a := tasks0[a].(prio := MinHeadPri(tasks0, objects0, tasks0[a].mutexList, tasks0[a].bPrio))]
  {
    assert objects1[m].blocked == [];
    PushedThenReleased(tasks0, objects0, a, m, tasks1, objects1, tasks2, objects2);
  }

  /** LockThenUnlock on the tables alone: a pushes the free mutex m, takes
      it, then drops it again and takes ReleasedPri. */
  lemma PushedThenReleased(tasks0: map<TaskId, Tcb>, objects0: map<ObjId, KObject>, a: TaskId, m: ObjId,
                           tasks1: map<TaskId, Tcb>, objects1: map<ObjId, KObject>,
                           tasks2: map<TaskId, Tcb>, objects2: map<ObjId, KObject>)
    requires m in objects0 && objects0[m].body == MutexBody(None, 0)
    requires a in tasks0 && m !in tasks0[a].mutexList
    requires tasks1 == tasks0[a := tasks0[a].(mutexList := [m] + tasks0[a].mutexList)]
    requires objects1 == objects0[m := objects0[m].(body := MutexBody(Some(a), 1))]
    requires tasks2 == tasks1[a := tasks1[a].(mutexList := Without(tasks1[a].mutexList, Some(m)),
                                              prio := ReleasedPri(tasks1, objects1, a, m))]
    requires objects2 == objects1[m := objects1[m].(body := MutexBody(None, 0))]
    ensures objects2 == objects0
    ensures tasks2 == tasks0[a := tasks0[a].(prio := MinHeadPri(tasks0, objects0, tasks0[a].mutexList, tasks0[a].bPrio))]
  {
    var pri := MinHeadPri(tasks0, objects0, tasks0[a].mutexList, tasks0[a].bPrio);
    assert objects2 == objects0[m := objects0[m]];
    PushedPri(tasks0, objects0, a, m, tasks1, objects1);
    assert tasks1[a].(mutexList := Without(tasks1[a].mutexList, Some(m)), prio := pri) == tasks0[a].(prio := pri);
    Overwrite(tasks0, a, tasks1[a], tasks0[a].(prio := pri));
  }

  /** Pushing and taking the free mutex m leaves the priority a would
      fall back to on releasing it at the one it started from. */
  lemma PushedPri(tasks0: map<TaskId, Tcb>, objects0: map<ObjId, KObject>, a: TaskId, m: ObjId,
                  tasks1: map<TaskId, Tcb>, objects1: map<ObjId, KObject>)
    requires m in objects0 && objects0[m].body == MutexBody(None, 0)
    requires a in tasks0 && m !in tasks0[a].mutexList
    requires tasks1 == tasks0[a := tasks0[a].(mutexList := [m] + tasks0[a].mutexList)]
    requires objects1 == objects0[m := objects0[m].(body := MutexBody(Some(a), 1))]
    ensures a in tasks1 && Without(tasks1[a].mutexList, Some(m)) == tasks0[a].mutexList
    ensures ReleasedPri(tasks1, objects1, a, m) == MinHeadPri(tasks0, objects0, tasks0[a].mutexList, tasks0[a].bPrio)
  {
    var ms := tasks0[a].mutexList;
    PushThenUnlink(ms, m);
    PrioOfOnlyPrio(tasks0, a, tasks1[a]);
    MinHeadPriFrame(tasks0, tasks1, objects1, ms, tasks0[a].bPrio);
    MinHeadPriObjects(tasks0, objects0, objects1, ms, tasks0[a].bPrio);
  }

  /** The tasks after the owner of mutex x, handle m, if it has one,
      drops m from its mutex list. */
  ghost function Disowned(tasks: map<TaskId, Tcb>, x: KObject, m: ObjId): map<TaskId, Tcb>
  {
    if x.body.MutexBody? && x.body.owner.Some? && x.body.owner.value in tasks then
      var o := x.body.owner.value;
      tasks[o := tasks[o].(mutexList := Without(tasks[o].mutexList, Some(m)))]
    else tasks
  }

  /** What mutex_release of m does to the priority of m's owner, if any,
      and to the error log, from (tasks0, objects0, errors0) to (tasks,
      errors): a ready, sleeping or suspended owner takes ReleasedPri; a
      task that was never started or is deleted keeps its priority, and
      task_pri_change reports RHINO_INV_TASK_STATE when that differs; a
      pending owner passes the change along a chain of owners, which may
      end in that report. */
  ghost predicate OwnerReleased(tasks0: map<TaskId, Tcb>, objects0: map<ObjId, KObject>, errors0: seq<Status>,
                                m: ObjId, tasks: map<TaskId, Tcb>, errors: seq<Status>)
  {
    m in objects0 &&
    var x := objects0[m];
    if x.body.MutexBody? && x.body.owner.Some? && x.body.owner.value in tasks0 then
      var o := x.body.owner.value;
      var pri := ReleasedPri(tasks0, objects0, o, m);
      o in tasks &&
      (errors == errors0 || errors == errors0 + [InvTaskState]) &&
      (tasks0[o].state in {Rdy, Suspended, Sleep, SleepSuspended} ==> tasks[o].prio == pri && errors == errors0) &&
      (tasks0[o].state in {Seed, Deleted} ==>
         tasks[o].prio == tasks0[o].prio &&
         errors == if pri == tasks0[o].prio then errors0 else errors0 + [InvTaskState])
    else errors == errors0
  }

  /** The state a successful krhino_mutex_del of m leaves, from (tasks0,
      objects0, errors0) to (tasks, objects, errors): apart from
      priorities, the owner has let m go and every waiter has ended its
      pend with BLK_DEL, nothing else about a task differs; m has type
      NONE and no waiters, and the other wait lists keep their members. */
  ghost predicate DelOutcome(tasks0: map<TaskId, Tcb>, objects0: map<ObjId, KObject>, errors0: seq<Status>, m: ObjId,
                             tasks: map<TaskId, Tcb>, objects: map<ObjId, KObject>, errors: seq<Status>)
  {
    m in objects0 &&
    var x := objects0[m];
    AllPending(Disowned(tasks0, x, m), x.blocked) &&
    PrioOnly(EndAll(Disowned(tasks0, x, m), x.blocked, BlkDel), tasks) &&
    OrderOnly(objects0[m := x.(objType := NoObjType, blocked := [])], objects) &&
    OwnerReleased(tasks0, objects0, errors0, m, tasks, errors)
  }

  /** krhino_mutex_del on a static mutex: the type is reset to
      RHINO_OBJ_TYPE_NONE, the owner (if any) lets the mutex go
      (mutex_release), every waiter is woken with BLK_DEL (pend_task_rm),
      and the scheduler runs. */
  method MutexDel(k: Kernel, mutex: Option<ObjId>) returns (st: Status)
    requires k.Valid() && (mutex.Some? ==> mutex.value in k.objects)
    modifies k`tasks, k`objects, k`errors, k`active, k.rq, k.rq.lists
    ensures k.Valid()
    ensures st == (if mutex.None? then NullPtr
                   else if old(k.objects[mutex.value].objType) != MutexObjType then KobjTypeErr
                   else if old(k.objects[mutex.value].allocFlag) != StaticAlloc then KobjDelErr
                   else Success)
    ensures st != Success ==>
              k.tasks == old(k.tasks) && k.objects == old(k.objects) && k.errors == old(k.errors) &&
              k.active == old(k.active) && k.rq.lists[..] == old(k.rq.lists[..])
    ensures st == Success ==>
              DelOutcome(old(k.tasks), old(k.objects), old(k.errors), mutex.value, k.tasks, k.objects, k.errors) &&
              Unlisted(k.tasks, mutex.value) && (k.schedLock == 0 ==> HighestReady(k.tasks, k.active))
  {
    if mutex.None? {
      return NullPtr;
    }
    var m := mutex.value;
    var x := k.objects[m];
    if x.objType != MutexObjType {
      return KobjTypeErr;
    }
    if x.allocFlag != StaticAlloc {
      return KobjDelErr;
    }
    DelObj(k, m);
    return Success;
  }

  /** The deleting path of krhino_mutex_del: the mutex is retired, every
      waiter leaves it with BLK_DEL and the scheduler runs. */
  method DelObj(k: Kernel, m: ObjId)
    requires k.Valid() && m in k.objects && k.objects[m].objType == MutexObjType
    modifies k`tasks, k`objects, k`errors, k`active, k.rq, k.rq.lists
    ensures k.Valid()
    ensures DelOutcome(old(k.tasks), old(k.objects), old(k.errors), m, k.tasks, k.objects, k.errors)
    ensures Unlisted(k.tasks, m) && (k.schedLock == 0 ==> HighestReady(k.tasks, k.active))
  {
    ghost var tasks0, objects0, errors0 := k.tasks, k.objects, k.errors;
    Retire(k, m);
    ghost var tasks1, objects1 := k.tasks, k.objects;
    EndWaiters(k, m);
    RetireThenEnd(tasks0, objects0, errors0, m, tasks1, objects1, k.tasks, k.objects, k.errors);
    CoreSched(k);
  }

  /** Retiring m and then ending its waiters with BLK_DEL gives
      DelOutcome. */
  lemma RetireThenEnd(tasks0: map<TaskId, Tcb>, objects0: map<ObjId, KObject>, errors0: seq<Status>, m: ObjId,
                      tasks1: map<TaskId, Tcb>, objects1: map<ObjId, KObject>,
                      tasks2: map<TaskId, Tcb>, objects2: map<ObjId, KObject>, errors: seq<Status>)
    requires m in objects0 && m in objects1
    requires PrioOnly(Disowned(tasks0, objects0[m], m), tasks1)
    requires OrderOnly(objects0[m := objects0[m].(objType := NoObjType)], objects1)
    requires OwnerReleased(tasks0, objects0, errors0, m, tasks1, errors)
    requires objects2 == objects1[m := objects1[m].(blocked := [])]
    requires AllPending(tasks1, objects1[m].blocked) && tasks2 == EndAll(tasks1, objects1[m].blocked, BlkDel)
    ensures DelOutcome(tasks0, objects0, errors0, m, tasks2, objects2, errors)
  {
    var x := objects0[m];
    var b := objects1[m].blocked;
    var d := Disowned(tasks0, x, m);
    DeletedWaiters(d, tasks1, b, BlkDel);
    DeletedObjects(objects0, objects1, m, objects2);
    OwnerReleasedEnded(tasks0, objects0, errors0, m, tasks1, b, errors);
    forall i | 0 <= i < |x.blocked| ensures x.blocked[i] in d && IsPending(d[x.blocked[i]].state) {
      assert x.blocked[i] in b;
    }
    EndAllMembers(d, b, x.blocked, BlkDel);
  }

  /** Ending the waiters of a list depends only on who is on it, not on
      their order. */
  lemma EndAllMembers(tasks: map<TaskId, Tcb>, b: seq<TaskId>, c: seq<TaskId>, how: BlkState)
    requires AllPending(tasks, b) && AllPending(tasks, c) && forall u :: u in b <==> u in c
    ensures EndAll(tasks, b, how) == EndAll(tasks, c, how)
  {
    EndAllIs(tasks, b, how);
    EndAllIs(tasks, c, how);
  }

  /** Ending the same pending waiters with the same how keeps a
      priority-only difference between two task tables. */
  lemma DeletedWaiters(tasks0: map<TaskId, Tcb>, tasks1: map<TaskId, Tcb>, b: seq<TaskId>, how: BlkState)
    requires PrioOnly(tasks0, tasks1) && AllPending(tasks1, b)
    ensures AllPending(tasks0, b)
    ensures PrioOnly(EndAll(tasks0, b, how), EndAll(tasks1, b, how))
  {
    assert forall i :: 0 <= i < |b| ==> b[i] in tasks0 && tasks0[b[i]].state == tasks1[b[i]].state;
    EndAllIs(tasks0, b, how);
    EndAllIs(tasks1, b, how);
    var e0, e1 := EndAll(tasks0, b, how), EndAll(tasks1, b, how);
    forall u | u in tasks0 ensures e1[u] == e0[u].(prio := e1[u].prio) {
      if u in b {
        assert e0[u] == EndedTcb(tasks0[u], how) && e1[u] == EndedTcb(tasks1[u], how);
      } else {
        assert e0[u] == tasks0[u] && e1[u] == tasks1[u];
      }
    }
  }

  /** Emptying the wait list of retired mutex m keeps the other wait
      lists' members. */
  lemma DeletedObjects(objects0: map<ObjId, KObject>, objects1: map<ObjId, KObject>, m: ObjId,
                       objects2: map<ObjId, KObject>)
    requires m in objects0 && OrderOnly(objects0[m := objects0[m].(objType := NoObjType)], objects1)
    requires objects2 == objects1[m := objects1[m].(blocked := [])]
    ensures OrderOnly(objects0[m := objects0[m].(objType := NoObjType, blocked := [])], objects2)
  {
  }

  /** Ending pends changes no priority, so what mutex_release did to the
      owner survives the wake-ups. */
  lemma OwnerReleasedEnded(tasks0: map<TaskId, Tcb>, objects0: map<ObjId, KObject>, errors0: seq<Status>, m: ObjId,
                           tasks1: map<TaskId, Tcb>, b: seq<TaskId>, errors: seq<Status>)
    requires OwnerReleased(tasks0, objects0, errors0, m, tasks1, errors) && AllPending(tasks1, b)
    ensures OwnerReleased(tasks0, objects0, errors0, m, EndAll(tasks1, b, BlkDel), errors)
  {
    EndAllIs(tasks1, b, BlkDel);
  }

  /** Every waiter of the retired mutex m leaves it with BLK_DEL
      (pend_task_rm), first to last; nobody comes to list m. */
  method EndWaiters(k: Kernel, m: ObjId)
    requires k.Valid() && m in k.objects && Unlisted(k.tasks, m)
    modifies k`tasks, k`objects, k.rq, k.rq.lists
    ensures k.Valid() && Unlisted(k.tasks, m)
    ensures k.objects == old(k.objects)[m := old(k.objects[m]).(blocked := [])]
    ensures AllPending(old(k.tasks), old(k.objects[m].blocked))
    ensures k.tasks == EndAll(old(k.tasks), old(k.objects[m].blocked), BlkDel)
  {
    ghost var tasks1, b := k.tasks, k.objects[m].blocked;
    PendEndAll(k, m, BlkDel);
    EndAllIs(tasks1, b, BlkDel);
    forall u | u in k.tasks ensures m !in k.tasks[u].mutexList {
      assert k.tasks[u].mutexList == tasks1[u].mutexList;
    }
  }

  /** The mutex's type becomes RHINO_OBJ_TYPE_NONE and its owner, if
      any, lets it go (mutex_release); apart from priorities nothing else
      about a task changes, and the wait lists keep their members. */
  method Retire(k: Kernel, m: ObjId)
    requires k.Valid() && m in k.objects && k.objects[m].objType == MutexObjType
    modifies k`tasks, k`objects, k`errors, k.rq, k.rq.lists
    ensures k.Valid() && m in k.objects && Unlisted(k.tasks, m)
    ensures PrioOnly(Disowned(old(k.tasks), old(k.objects[m]), m), k.tasks)
    ensures OrderOnly(old(k.objects)[m := old(k.objects[m]).(objType := NoObjType)], k.objects)
    ensures OwnerReleased(old(k.tasks), old(k.objects), old(k.errors), m, k.tasks, k.errors)
  {
    var x := k.objects[m];
    ghost var tasks0, objects0, errors0 := k.tasks, k.objects, k.errors;
    Retype(k, m);
    ghost var objects1 := k.objects;
    assert k.tasks == tasks0 && k.errors == errors0;
    if x.body.owner.Some? {
      var o := x.body.owner.value;
      assert o in k.tasks && o != k.idle;
      MinHeadPriObjects(tasks0, objects0, objects1, Without(tasks0[o].mutexList, Some(m)), tasks0[o].bPrio);
      ghost var pri := ReleasedPri(tasks0, objects0, o, m);
      assert ReleasedPri(tasks0, objects1, o, m) == pri;
      Release(k, o, m);
      ReleasedOwner(tasks0, objects0, errors0, m, o, pri, k.tasks, k.errors);
    }
    UnlistedByOwner(k.tasks, k.objects, k.idle, m);
  }

  /** The outcome of Release for the owner o of m is OwnerReleased. */
  lemma ReleasedOwner(tasks0: map<TaskId, Tcb>, objects0: map<ObjId, KObject>, errors0: seq<Status>, m: ObjId,
                      o: TaskId, pri: nat, tasks: map<TaskId, Tcb>, errors: seq<Status>)
    requires m in objects0 && objects0[m].body.MutexBody? && objects0[m].body.owner == Some(o) && o in tasks0
    requires pri == ReleasedPri(tasks0, objects0, o, m) && o in tasks
    requires errors == errors0 || errors == errors0 + [InvTaskState]
    requires tasks0[o].state in {Rdy, Suspended, Sleep, SleepSuspended} ==> tasks[o].prio == pri && errors == errors0
    requires tasks0[o].state in {Seed, Deleted} ==>
               tasks[o].prio == tasks0[o].prio &&
               errors == if pri == tasks0[o].prio then errors0 else errors0 + [InvTaskState]
    ensures OwnerReleased(tasks0, objects0, errors0, m, tasks, errors)
  {
  }

  /** mutex_release for any task t other than the idle task: t drops m
      from its list and takes ReleasedPri by task_pri_change when that
      differs from its priority (for a pending t, only as the start of a
      chain of priority changes); only priorities and the order of wait
      lists change otherwise. */
  method Release(k: Kernel, t: TaskId, m: ObjId)
    requires k.Valid() && t in k.tasks && t != k.idle
    modifies k`tasks, k`objects, k`errors, k.rq, k.rq.lists
    ensures k.Valid()
    ensures PrioOnly(old(k.tasks)[t := old(k.tasks[t]).(mutexList := Without(old(k.tasks[t].mutexList), Some(m)))], k.tasks)
    ensures OrderOnly(old(k.objects), k.objects)
    ensures k.errors == old(k.errors) || k.errors == old(k.errors) + [InvTaskState]
    ensures old(k.tasks[t].state) in {Rdy, Suspended, Sleep, SleepSuspended} ==>
              k.tasks[t].prio == ReleasedPri(old(k.tasks), old(k.objects), t, m) && k.errors == old(k.errors)
    ensures old(k.tasks[t].state) in {Seed, Deleted} ==>
              k.tasks[t].prio == old(k.tasks[t].prio) &&
              k.errors == if ReleasedPri(old(k.tasks), old(k.objects), t, m) == old(k.tasks[t].prio) then old(k.errors)
                          else old(k.errors) + [InvTaskState]
  {
    ghost var tasks0 := k.tasks;
    var newPri := MutexPriLook(k, t, Some(m));
    KernelUnlink(tasks0, k.objects, k.rq.lists[..], k.active, k.idle, t, Some(m));
    assert TcbOk(tasks0[t]);
    ReleasedPriIs(tasks0, k.objects, t, m);
    ghost var tasks1 := k.tasks;
    assert tasks1[t].state == tasks0[t].state && tasks1[t].prio == tasks0[t].prio;
    if newPri != k.tasks[t].prio {
      var _ := TaskPriChange(k, t, newPri, |k.tasks|);
      assert tasks0[t].state in {Rdy, Suspended, Sleep, SleepSuspended} ==> k.tasks[t].prio == newPri;
    }
  }
}
