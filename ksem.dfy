// The counting semaphore of k_sem.c on one CPU: creation, give (to one
// waiter or to all of them), take, setting and reading the count, and
// deletion. A semaphore is a kernel object with a SemBody; its wait list
// is in priority order (BLK_POLICY_PRI). A NULL semaphore pointer is
// None.
module KSem {
  import opened KObj
  import opened KState
  import opened KPend

  /** krhino_sem_create (sem_create with a static control block): no
      waiters, and the count and its peak both set to count, which is a
      sem_count_t. hasName says whether the name pointer is not NULL. */
  method SemCreate(k: Kernel, sem: Option<ObjId>, hasName: bool, count: nat) returns (st: Status)
    requires k.Valid() && (sem.Some? ==> sem.value !in k.objects) && count <= SEM_COUNT_MAX
    modifies k`objects
    ensures k.Valid()
    ensures st == (if sem.None? || !hasName then NullPtr else Success)
    ensures st != Success ==> k.objects == old(k.objects)
    ensures st == Success ==>
              k.objects == old(k.objects)[sem.value := KObject(SemObjType, [], StaticAlloc, SemBody(count, count))]
  {
    if sem.None? || !hasName {
      return NullPtr;
    }
    var y := KObject(SemObjType, [], StaticAlloc, SemBody(count, count));
    KernelNewObj(k.tasks, k.objects, k.rq.lists[..], k.active, k.idle, sem.value, y);
    k.objects := k.objects[sem.value := y];
    return Success;
  }

  // ---------------------------------------------------------------------
  // Give.

  /** What sem_give returns for a control block in state x. */
  function GiveStatus(x: KObject): Status
    requires x.objType == SemObjType ==> x.body.SemBody?
  {
    if x.objType != SemObjType then KobjTypeErr
    else if x.blocked == [] && x.body.count == SEM_COUNT_MAX then SemOvf
    else Success
  }

  /** The state sem_give of s leaves, waking all waiters when all holds,
      from (tasks0, objects0, lists0, active0) to (tasks, objects, lists,
      active), for each status st it returns: without waiters the count
      goes up by one (RHINO_SEM_OVF at the top of sem_count_t) and the
      peak follows; otherwise the count stays and the first waiter, or
      every waiter, is woken, and the scheduler runs. */
  ghost predicate GiveOutcome(tasks0: map<TaskId, Tcb>, objects0: map<ObjId, KObject>, lists0: seq<seq<TaskId>>,
                              active0: TaskId, s: ObjId, all: bool, st: Status,
                              tasks: map<TaskId, Tcb>, objects: map<ObjId, KObject>, lists: seq<seq<TaskId>>,
                              active: TaskId, schedLock: nat)
  {
    s in objects0 &&
    var x := objects0[s];
    var same := tasks == tasks0 && lists == lists0 && active == active0;
    (st in {KobjTypeErr, SemOvf} ==> same && objects == objects0) &&
    (st == Success && x.blocked == [] ==>
       same && x.body.SemBody? &&
       objects == objects0[s := x.(body := SemBody(x.body.count + 1, Max(x.body.peakCount, x.body.count + 1)))]) &&
    (st == Success && x.blocked != [] && !all ==>
       var h := x.blocked[0];
       h in tasks0 && IsPending(tasks0[h].state) &&
       tasks == tasks0[h := EndedTcb(tasks0[h], BlkFinish)] &&
       objects == objects0[s := x.(blocked := x.blocked[1..])] &&
       (schedLock == 0 ==> HighestReady(tasks, active))) &&
    (st == Success && x.blocked != [] && all ==>
       AllPending(tasks0, x.blocked) && tasks == EndAll(tasks0, x.blocked, BlkFinish) &&
       objects == objects0[s := x.(blocked := [])] &&
       (schedLock == 0 ==> HighestReady(tasks, active)))
  }

  /** krhino_sem_give: sem_give waking one waiter. */
  method SemGive(k: Kernel, sem: Option<ObjId>) returns (st: Status)
    requires k.Valid() && (sem.Some? ==> sem.value in k.objects)
    modifies k`tasks, k`objects, k`active, k.rq, k.rq.lists
    ensures k.Valid()
    ensures sem.None? ==>
              st == NullPtr && k.tasks == old(k.tasks) && k.objects == old(k.objects) &&
              k.active == old(k.active) && k.rq.lists[..] == old(k.rq.lists[..])
    ensures sem.Some? ==>
              st == GiveStatus(old(k.objects[sem.value])) &&
              GiveOutcome(old(k.tasks), old(k.objects), old(k.rq.lists[..]), old(k.active), sem.value, false, st,
                          k.tasks, k.objects, k.rq.lists[..], k.active, k.schedLock)
  {
    if sem.None? {
      return NullPtr;
    }
    st := GiveObj(k, sem.value, false);
  }

  /** krhino_sem_give_all: sem_give waking every waiter. */
  method SemGiveAll(k: Kernel, sem: Option<ObjId>) returns (st: Status)
    requires k.Valid() && (sem.Some? ==> sem.value in k.objects)
    modifies k`tasks, k`objects, k`active, k.rq, k.rq.lists
    ensures k.Valid()
    ensures sem.None? ==>
              st == NullPtr && k.tasks == old(k.tasks) && k.objects == old(k.objects) &&
              k.active == old(k.active) && k.rq.lists[..] == old(k.rq.lists[..])
    ensures sem.Some? ==>
              st == GiveStatus(old(k.objects[sem.value])) &&
              GiveOutcome(old(k.tasks), old(k.objects), old(k.rq.lists[..]), old(k.active), sem.value, true, st,
                          k.tasks, k.objects, k.rq.lists[..], k.active, k.schedLock)
  {
    if sem.None? {
      return NullPtr;
    }
    st := GiveObj(k, sem.value, true);
  }

  /** sem_give. */
  method GiveObj(k: Kernel, s: ObjId, all: bool) returns (st: Status)
    requires k.Valid() && s in k.objects
    modifies k`tasks, k`objects, k`active, k.rq, k.rq.lists
    ensures k.Valid()
    ensures st == GiveStatus(old(k.objects[s]))
    ensures GiveOutcome(old(k.tasks), old(k.objects), old(k.rq.lists[..]), old(k.active), s, all, st,
                        k.tasks, k.objects, k.rq.lists[..], k.active, k.schedLock)
  {
    var x := k.objects[s];
    if x.objType != SemObjType {
      return KobjTypeErr;
    }
    if x.blocked == [] {
      if x.body.count == SEM_COUNT_MAX {
        return SemOvf;
      }
      var y := x.(body := SemBody(x.body.count + 1, Max(x.body.peakCount, x.body.count + 1)));
      KernelPutObj(k.tasks, k.objects, k.rq.lists[..], k.active, k.idle, s, y);
      k.objects := k.objects[s := y];
      return Success;
    }
    Wake(k, s, all);
    CoreSched(k);
    return Success;
  }

  /** pend_task_wakeup of the first waiter of s, or of each waiter in
      turn when all holds. */
  method Wake(k: Kernel, s: ObjId, all: bool)
    requires k.Valid() && s in k.objects && k.objects[s].blocked != []
    modifies k`tasks, k`objects, k.rq, k.rq.lists
    ensures k.Valid()
    ensures var x := old(k.objects[s]);
            (!all ==>
               var h := x.blocked[0];
               h in old(k.tasks) && IsPending(old(k.tasks[h].state)) &&
               k.tasks == old(k.tasks)[h := EndedTcb(old(k.tasks[h]), BlkFinish)] &&
               k.objects == old(k.objects)[s := x.(blocked := x.blocked[1..])]) &&
            (all ==>
               AllPending(old(k.tasks), x.blocked) && k.tasks == EndAll(old(k.tasks), x.blocked, BlkFinish) &&
               k.objects == old(k.objects)[s := x.(blocked := [])])
  {
    if all {
      PendEndAll(k, s, BlkFinish);
    } else {
      EndFirst(k, s, BlkFinish);
    }
  }

  // ---------------------------------------------------------------------
  // Take.

  /** What krhino_sem_take returns for a control block in state x with
      timeout ticks; Blocked when the running task has to wait. */
  function TakeStatus(x: KObject, ticks: nat, schedLock: nat): Status
    requires x.objType == SemObjType ==> x.body.SemBody?
  {
    if x.objType != SemObjType then KobjTypeErr
    else if x.body.count > 0 then Success
    else if ticks == NO_WAIT then NoPendWait
    else if schedLock > 0 then Status.SchedDisable
    else Blocked
  }

  /** The state krhino_sem_take of s by the running task a leaves, for
      each status st it returns: a positive count goes down by one;
      otherwise a waits on s in priority order and the scheduler runs. */
  ghost predicate TakeOutcome(tasks0: map<TaskId, Tcb>, objects0: map<ObjId, KObject>, lists0: seq<seq<TaskId>>,
                              a: TaskId, s: ObjId, st: Status,
                              tasks: map<TaskId, Tcb>, objects: map<ObjId, KObject>, lists: seq<seq<TaskId>>,
                              active: TaskId)
  {
    s in objects0 && a in tasks0 &&
    var x := objects0[s];
    var same := tasks == tasks0 && lists == lists0 && active == a;
    (st in {KobjTypeErr, NoPendWait, Status.SchedDisable} ==> same && objects == objects0) &&
    (st == Success ==>
       same && x.body.SemBody? && x.body.count > 0 &&
       objects == objects0[s := x.(body := x.body.(count := x.body.count - 1))]) &&
    (st == Blocked ==>
       var y := tasks0[a].(state := Pend, blkObj := Some(s));
       tasks == tasks0[a := y] &&
       objects == objects0[s := x.(blocked := PendInsert(tasks, x.blocked, a, y.prio))] &&
       HighestReady(tasks, active))
  }

  /** krhino_sem_take by the running task, which may be the idle task
      only when the call does not make it wait. */
  method SemTake(k: Kernel, sem: Option<ObjId>, ticks: nat) returns (st: Status)
    requires k.Valid() && (sem.Some? ==> sem.value in k.objects)
    requires sem.Some? && k.active == k.idle ==> TakeStatus(k.objects[sem.value], ticks, k.schedLock) != Blocked
    modifies k`tasks, k`objects, k`active, k.rq, k.rq.lists
    ensures k.Valid()
    ensures sem.None? ==>
              st == NullPtr && k.tasks == old(k.tasks) && k.objects == old(k.objects) &&
              k.active == old(k.active) && k.rq.lists[..] == old(k.rq.lists[..])
    ensures sem.Some? ==>
              st == TakeStatus(old(k.objects[sem.value]), ticks, k.schedLock) &&
              TakeOutcome(old(k.tasks), old(k.objects), old(k.rq.lists[..]), old(k.active), sem.value, st,
                          k.tasks, k.objects, k.rq.lists[..], k.active)
  {
    if sem.None? {
      return NullPtr;
    }
    st := TakeObj(k, sem.value, ticks);
  }

  /** krhino_sem_take past its NULL check. */
  method TakeObj(k: Kernel, s: ObjId, ticks: nat) returns (st: Status)
    requires k.Valid() && s in k.objects
    requires k.active == k.idle ==> TakeStatus(k.objects[s], ticks, k.schedLock) != Blocked
    modifies k`tasks, k`objects, k`active, k.rq, k.rq.lists
    ensures k.Valid()
    ensures st == TakeStatus(old(k.objects[s]), ticks, k.schedLock)
    ensures TakeOutcome(old(k.tasks), old(k.objects), old(k.rq.lists[..]), old(k.active), s, st,
                        k.tasks, k.objects, k.rq.lists[..], k.active)
  {
    var x := k.objects[s];
    if x.objType != SemObjType {
      return KobjTypeErr;
    }
    if x.body.count > 0 {
      var y := x.(body := x.body.(count := x.body.count - 1));
      KernelPutObj(k.tasks, k.objects, k.rq.lists[..], k.active, k.idle, s, y);
      k.objects := k.objects[s := y];
      return Success;
    }
    if ticks == NO_WAIT {
      return NoPendWait;
    }
    if k.schedLock > 0 {
      return Status.SchedDisable;
    }
    assert MayWait(k.objects[s]);
    PendToBlkObj(k, s);
    ghost var tasks1, objects1 := k.tasks, k.objects;
    CoreSched(k);
    assert k.tasks == tasks1 && k.objects == objects1;
    return Blocked;
  }

  // ---------------------------------------------------------------------
  // Count.

  /** What krhino_sem_count_set returns for a control block in state x:
      the count may not change while tasks wait. */
  function CountSetStatus(x: KObject): Status
    requires x.objType == SemObjType ==> x.body.SemBody?
  {
    if x.objType != SemObjType then KobjTypeErr
    else if x.body.count == 0 && x.blocked != [] then SemTaskWaiting
    else Success
  }

  /** krhino_sem_count_set: the count becomes count, a sem_count_t, and
      the peak follows it up. */
  method SemCountSet(k: Kernel, sem: Option<ObjId>, count: nat) returns (st: Status)
    requires k.Valid() && (sem.Some? ==> sem.value in k.objects) && count <= SEM_COUNT_MAX
    modifies k`objects
    ensures k.Valid()
    ensures st == if sem.None? then NullPtr else CountSetStatus(old(k.objects[sem.value]))
    ensures st != Success ==> k.objects == old(k.objects)
    ensures st == Success ==>
              var x := old(k.objects[sem.value]);
              x.body.SemBody? &&
              k.objects == old(k.objects)[sem.value := x.(body := SemBody(count, Max(x.body.peakCount, count)))]
  {
    if sem.None? {
      return NullPtr;
    }
    var s := sem.value;
    var x := k.objects[s];
    if x.objType != SemObjType {
      return KobjTypeErr;
    }
    if x.body.count == 0 && x.blocked != [] {
      return SemTaskWaiting;
    }
    var y := x.(body := SemBody(count, Max(x.body.peakCount, count)));
    KernelPutObj(k.tasks, k.objects, k.rq.lists[..], k.active, k.idle, s, y);
    k.objects := k.objects[s := y];
    return Success;
  }

  /** krhino_sem_count_get of a semaphore control block (it does not check
      the type, so a deleted semaphore still reports its last count);
      hasOut says whether the out pointer is not NULL. */
  method SemCountGet(k: Kernel, sem: Option<ObjId>, hasOut: bool) returns (st: Status, count: nat)
    requires sem.Some? ==> sem.value in k.objects && k.objects[sem.value].body.SemBody?
    ensures st == if sem.None? || !hasOut then NullPtr else Success
    ensures st == Success ==> count == k.objects[sem.value].body.count
  {
    if sem.None? || !hasOut {
      return NullPtr, 0;
    }
    return Success, k.objects[sem.value].body.count;
  }

  // ---------------------------------------------------------------------
  // Delete.

  /** krhino_sem_del on a static semaphore: the type is reset to
      RHINO_OBJ_TYPE_NONE, every waiter is woken with BLK_DEL
      (pend_task_rm), and the scheduler runs. */
  method SemDel(k: Kernel, sem: Option<ObjId>) returns (st: Status)
    requires k.Valid() && (sem.Some? ==> sem.value in k.objects)
    modifies k`tasks, k`objects, k`active, k.rq, k.rq.lists
    ensures k.Valid()
    ensures st == (if sem.None? then NullPtr
                   else if old(k.objects[sem.value].objType) != SemObjType then KobjTypeErr
                   else if old(k.objects[sem.value].allocFlag) != StaticAlloc then KobjDelErr
                   else Success)
    ensures st != Success ==>
              k.tasks == old(k.tasks) && k.objects == old(k.objects) &&
              k.active == old(k.active) && k.rq.lists[..] == old(k.rq.lists[..])
    ensures st == Success ==>
              var s := sem.value;
              var x := old(k.objects[s]);
              AllPending(old(k.tasks), x.blocked) &&
              k.objects == old(k.objects)[s := x.(objType := NoObjType, blocked := [])] &&
              k.tasks == EndAll(old(k.tasks), x.blocked, BlkDel) &&
              (k.schedLock == 0 ==> HighestReady(k.tasks, k.active))
  {
    if sem.None? {
      return NullPtr;
    }
    var s := sem.value;
    var x := k.objects[s];
    if x.objType != SemObjType {
      return KobjTypeErr;
    }
    if x.allocFlag != StaticAlloc {
      return KobjDelErr;
    }
    DelObj(k, s);
    return Success;
  }

  /** The deleting path of krhino_sem_del. */
  method DelObj(k: Kernel, s: ObjId)
    requires k.Valid() && s in k.objects
    modifies k`tasks, k`objects, k`active, k.rq, k.rq.lists
    ensures k.Valid()
    ensures var x := old(k.objects[s]);
            AllPending(old(k.tasks), x.blocked) &&
            k.objects == old(k.objects)[s := x.(objType := NoObjType, blocked := [])] &&
            k.tasks == EndAll(old(k.tasks), x.blocked, BlkDel) &&
            (k.schedLock == 0 ==> HighestReady(k.tasks, k.active))
  {
    ghost var objects0, x := k.objects, k.objects[s];
    Retype(k, s);
    PendEndAll(k, s, BlkDel);
    Overwrite(objects0, s, x.(objType := NoObjType), x.(objType := NoObjType, blocked := []));
    CoreSched(k);
  }

  // ---------------------------------------------------------------------
  // Round trips.

  /** A successful take followed by a successful give, with nobody waiting,
      leaves every object as it was: the count comes back and the peak,
      which bounds it, stays. */
  lemma TakeThenGive(tasks0: map<TaskId, Tcb>, objects0: map<ObjId, KObject>, lists0: seq<seq<TaskId>>,
                     a: TaskId, s: ObjId,
                     tasks1: map<TaskId, Tcb>, objects1: map<ObjId, KObject>, lists1: seq<seq<TaskId>>,
                     active1: TaskId, all: bool,
                     tasks2: map<TaskId, Tcb>, objects2: map<ObjId, KObject>, lists2: seq<seq<TaskId>>,
                     active2: TaskId, schedLock: nat)
    requires s in objects0 && objects0[s].objType == SemObjType && ObjOk(objects0[s])
    requires TakeOutcome(tasks0, objects0, lists0, a, s, Success, tasks1, objects1, lists1, active1)
    requires GiveOutcome(tasks1, objects1, lists1, active1, s, all, Success,
                         tasks2, objects2, lists2, active2, schedLock)
    ensures objects2 == objects0 && tasks2 == tasks0 && lists2 == lists0 && active2 == a
  {
    var x := objects0[s];
    assert objects1[s] == x.(body := x.body.(count := x.body.count - 1));
    assert objects2[s] == x;
  }

  /** A successful give with nobody waiting followed by a successful take
      brings the count back; the peak is at least the count the give
      reached. */
  lemma GiveThenTake(tasks0: map<TaskId, Tcb>, objects0: map<ObjId, KObject>, lists0: seq<seq<TaskId>>,
                     a: TaskId, s: ObjId, all: bool,
                     tasks1: map<TaskId, Tcb>, objects1: map<ObjId, KObject>, lists1: seq<seq<TaskId>>,
                     active1: TaskId,
                     tasks2: map<TaskId, Tcb>, objects2: map<ObjId, KObject>, lists2: seq<seq<TaskId>>,
                     active2: TaskId, schedLock: nat)
    requires s in objects0 && objects0[s].blocked == []
    requires GiveOutcome(tasks0, objects0, lists0, a, s, all, Success, tasks1, objects1, lists1, active1, schedLock)
    requires TakeOutcome(tasks1, objects1, lists1, a, s, Success, tasks2, objects2, lists2, active2)
    ensures var x := objects0[s];
            x.body.SemBody? && objects2 == objects0[s := x.(body := x.body.(peakCount := Max(x.body.peakCount, x.body.count + 1)))]
    ensures tasks2 == tasks0 && lists2 == lists0 && active2 == a
  {
    var x := objects0[s];
    assert objects1[s].body == SemBody(x.body.count + 1, Max(x.body.peakCount, x.body.count + 1));
  }
}
