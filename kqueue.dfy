// The message queue of k_queue.c on one CPU: creation, sending to the
// back (to one waiter or to all of them), receiving, the fullness test,
// flushing and deletion. A queue is a kernel object with a QueueBody whose
// buf is the ring buffer of fixed-size pointer messages, oldest first; a
// message is an int and NULL is 0. A NULL queue pointer is None.
module KQueue {
  import opened KObj
  import opened KState
  import opened KPend

  const NULL: int := 0

  // ---------------------------------------------------------------------
  // Handing a message to waiters (task_msg_recv).

  /** The tasks after each task of b has been handed message p
      (task->msg = msg). */
  function Delivered(tasks: map<TaskId, Tcb>, b: seq<TaskId>, p: int): map<TaskId, Tcb>
  {
    map u | u in tasks :: if u in b then tasks[u].(msg := p) else tasks[u]
  }

  /** The message a task holds plays no part in the invariant. */
  lemma KernelDeliver(tasks: map<TaskId, Tcb>, objects: map<ObjId, KObject>, lists: seq<seq<TaskId>>,
                      active: TaskId, idle: TaskId, b: seq<TaskId>, p: int)
    requires KernelOk(tasks, objects, lists, active, idle)
    ensures KernelOk(Delivered(tasks, b, p), objects, lists, active, idle)
  {
    var tasks' := Delivered(tasks, b, p);
    assert forall u :: u in tasks ==> tasks'[u] == tasks[u].(msg := tasks'[u].msg);
    assert forall u :: PrioOf(tasks', u) == PrioOf(tasks, u);
    forall o | o in objects ensures PriOrdered(tasks', objects[o].blocked) {
      assert PriOrdered(tasks, objects[o].blocked);
    }
    forall o, u | o in objects && u in objects[o].blocked ensures Waiting(tasks', u, o) {
      assert Waiting(tasks, u, o);
    }
    forall u, m | u in tasks' && m in tasks'[u].mutexList ensures Held(objects, m, u) {
      assert m in tasks[u].mutexList;
    }
  }

  /** Handing p to one task changes that task's message only. */
  lemma DeliveredOne(tasks: map<TaskId, Tcb>, h: TaskId, p: int)
    requires h in tasks
    ensures Delivered(tasks, [h], p) == tasks[h := tasks[h].(msg := p)]
  {
    var r := Delivered(tasks, [h], p);
    assert forall u :: u in r ==> r[u] == tasks[h := tasks[h].(msg := p)][u];
  }

  /** task->msg = p for each task of b. */
  method Deliver(k: Kernel, b: seq<TaskId>, p: int)
    requires k.Valid()
    modifies k`tasks
    ensures k.Valid() && k.tasks == Delivered(old(k.tasks), b, p)
  {
    KernelDeliver(k.tasks, k.objects, k.rq.lists[..], k.active, k.idle, b, p);
    k.tasks := Delivered(k.tasks, b, p);
  }

  // ---------------------------------------------------------------------
  // Create.

  /** krhino_queue_create (queue_create with a static control block): an
      empty queue with room for msgNum messages. hasStart and hasName say
      whether the buffer and name pointers are not NULL. */
  method QueueCreate(k: Kernel, queue: Option<ObjId>, hasName: bool, hasStart: bool, msgNum: nat)
    returns (st: Status)
    requires k.Valid() && (queue.Some? ==> queue.value !in k.objects)
    modifies k`objects
    ensures k.Valid()
    ensures st == (if queue.None? || !hasStart || !hasName then NullPtr
                   else if msgNum == 0 then InvParam
                   else Success)
    ensures st != Success ==> k.objects == old(k.objects)
    ensures st == Success ==>
              k.objects == old(k.objects)[queue.value := KObject(QueueObjType, [], StaticAlloc, QueueBody([], msgNum, 0, 0))]
  {
    if queue.None? || !hasStart || !hasName {
      return NullPtr;
    }
    if msgNum == 0 {
      return InvParam;
    }
    var y := KObject(QueueObjType, [], StaticAlloc, QueueBody([], msgNum, 0, 0));
    KernelNewObj(k.tasks, k.objects, k.rq.lists[..], k.active, k.idle, queue.value, y);
    k.objects := k.objects[queue.value := y];
    return Success;
  }

  // ---------------------------------------------------------------------
  // Send.

  /** What msg_send returns for a control block in state x. */
  function SendStatus(x: KObject): Status
    requires x.objType == QueueObjType ==> x.body.QueueBody?
  {
    if x.objType != QueueObjType then KobjTypeErr
    else if x.body.curNum >= x.body.size then QueueFull
    else Success
  }

  /** The state msg_send of message p to q leaves, handing it to all
      waiters when all holds, from (tasks0, objects0, lists0, active0) to
      (tasks, objects, lists, active), for each status st it returns:
      without waiters p goes to the back of the buffer and the count and
      its peak follow; otherwise the buffer stays as it is, the first
      waiter, or every waiter, is handed p and woken, and the scheduler
      runs. */
  ghost predicate SendOutcome(tasks0: map<TaskId, Tcb>, objects0: map<ObjId, KObject>, lists0: seq<seq<TaskId>>,
                              active0: TaskId, q: ObjId, p: int, all: bool, st: Status,
                              tasks: map<TaskId, Tcb>, objects: map<ObjId, KObject>, lists: seq<seq<TaskId>>,
                              active: TaskId, schedLock: nat)
  {
    q in objects0 &&
    var x := objects0[q];
    var same := tasks == tasks0 && lists == lists0 && active == active0;
    (st in {KobjTypeErr, QueueFull} ==> same && objects == objects0) &&
    (st == Success && x.blocked == [] ==>
       same && x.body.QueueBody? &&
       objects == objects0[q := x.(body := x.body.(buf := x.body.buf + [p], curNum := x.body.curNum + 1,
                                                   peakNum := Max(x.body.peakNum, x.body.curNum + 1)))]) &&
    (st == Success && x.blocked != [] && !all ==>
       var h := x.blocked[0];
       h in tasks0 && IsPending(tasks0[h].state) &&
       tasks == tasks0[h := EndedTcb(tasks0[h].(msg := p), BlkFinish)] &&
       objects == objects0[q := x.(blocked := x.blocked[1..])] &&
       (schedLock == 0 ==> HighestReady(tasks, active))) &&
    (st == Success && x.blocked != [] && all ==>
       var given := Delivered(tasks0, x.blocked, p);
       AllPending(given, x.blocked) && tasks == EndAll(given, x.blocked, BlkFinish) &&
       objects == objects0[q := x.(blocked := [])] &&
       (schedLock == 0 ==> HighestReady(tasks, active)))
  }

  /** krhino_queue_back_send: msg_send handing p to one waiter. */
  method QueueBackSend(k: Kernel, queue: Option<ObjId>, p: int) returns (st: Status)
    requires k.Valid() && (queue.Some? ==> queue.value in k.objects)
    modifies k`tasks, k`objects, k`active, k.rq, k.rq.lists
    ensures k.Valid()
    ensures queue.None? ==>
              st == NullPtr && k.tasks == old(k.tasks) && k.objects == old(k.objects) &&
              k.active == old(k.active) && k.rq.lists[..] == old(k.rq.lists[..])
    ensures queue.Some? ==>
              st == SendStatus(old(k.objects[queue.value])) &&
              SendOutcome(old(k.tasks), old(k.objects), old(k.rq.lists[..]), old(k.active), queue.value, p, false, st,
                          k.tasks, k.objects, k.rq.lists[..], k.active, k.schedLock)
  {
    if queue.None? {
      return NullPtr;
    }
    st := SendObj(k, queue.value, p, false);
  }

  /** krhino_queue_all_send: msg_send handing p to every waiter. */
  method QueueAllSend(k: Kernel, queue: Option<ObjId>, p: int) returns (st: Status)
    requires k.Valid() && (queue.Some? ==> queue.value in k.objects)
    modifies k`tasks, k`objects, k`active, k.rq, k.rq.lists
    ensures k.Valid()
    ensures queue.None? ==>
              st == NullPtr && k.tasks == old(k.tasks) && k.objects == old(k.objects) &&
              k.active == old(k.active) && k.rq.lists[..] == old(k.rq.lists[..])
    ensures queue.Some? ==>
              st == SendStatus(old(k.objects[queue.value])) &&
              SendOutcome(old(k.tasks), old(k.objects), old(k.rq.lists[..]), old(k.active), queue.value, p, true, st,
                          k.tasks, k.objects, k.rq.lists[..], k.active, k.schedLock)
  {
    if queue.None? {
      return NullPtr;
    }
    st := SendObj(k, queue.value, p, true);
  }

  /** msg_send past its NULL check. */
  method SendObj(k: Kernel, q: ObjId, p: int, all: bool) returns (st: Status)
    requires k.Valid() && q in k.objects
    modifies k`tasks, k`objects, k`active, k.rq, k.rq.lists
    ensures k.Valid()
    ensures st == SendStatus(old(k.objects[q]))
    ensures SendOutcome(old(k.tasks), old(k.objects), old(k.rq.lists[..]), old(k.active), q, p, all, st,
                        k.tasks, k.objects, k.rq.lists[..], k.active, k.schedLock)
  {
    var x := k.objects[q];
    if x.objType != QueueObjType {
      return KobjTypeErr;
    }
    if x.body.curNum >= x.body.size {
      return QueueFull;
    }
    if x.blocked == [] {
      var y := x.(body := x.body.(buf := x.body.buf + [p], curNum := x.body.curNum + 1,
                                  peakNum := Max(x.body.peakNum, x.body.curNum + 1)));
      KernelPutObj(k.tasks, k.objects, k.rq.lists[..], k.active, k.idle, q, y);
      k.objects := k.objects[q := y];
      return Success;
    }
    if all {
      WakeAll(k, q, p);
    } else {
      WakeFirst(k, q, p);
    }
    CoreSched(k);
    return Success;
  }

  /** task_msg_recv of the first waiter of q. */
  method WakeFirst(k: Kernel, q: ObjId, p: int)
    requires k.Valid() && q in k.objects && k.objects[q].blocked != []
    modifies k`tasks, k`objects, k.rq, k.rq.lists
    ensures k.Valid()
    ensures var x := old(k.objects[q]);
            var h := x.blocked[0];
            h in old(k.tasks) && IsPending(old(k.tasks[h].state)) &&
            k.tasks == old(k.tasks)[h := EndedTcb(old(k.tasks[h]).(msg := p), BlkFinish)] &&
            k.objects == old(k.objects)[q := x.(blocked := x.blocked[1..])]
  {
    var h := k.objects[q].blocked[0];
    ghost var tasks0, objects0 := k.tasks, k.objects;
    assert h in k.objects[q].blocked && Waiting(k.tasks, h, q);
    DeliveredOne(k.tasks, h, p);
    Deliver(k, [h], p);
    ghost var tasks1 := k.tasks;
    assert tasks1 == tasks0[h := tasks0[h].(msg := p)] && tasks1[h] == tasks0[h].(msg := p);
    assert k.objects == objects0;
    EndFirst(k, q, BlkFinish);
    Overwrite(tasks0, h, tasks0[h].(msg := p), EndedTcb(tasks0[h].(msg := p), BlkFinish));
  }

  /** task_msg_recv of each waiter of q in turn. */
  method WakeAll(k: Kernel, q: ObjId, p: int)
    requires k.Valid() && q in k.objects
    modifies k`tasks, k`objects, k.rq, k.rq.lists
    ensures k.Valid()
    ensures var x := old(k.objects[q]);
            var given := Delivered(old(k.tasks), x.blocked, p);
            AllPending(given, x.blocked) && k.tasks == EndAll(given, x.blocked, BlkFinish) &&
            k.objects == old(k.objects)[q := x.(blocked := [])]
  {
    Deliver(k, k.objects[q].blocked, p);
    PendEndAll(k, q, BlkFinish);
  }

  // ---------------------------------------------------------------------
  // Receive.

  /** What krhino_queue_recv returns for a control block in state x with
      timeout ticks; Blocked when the running task has to wait. */
  function RecvStatus(x: KObject, ticks: nat, schedLock: nat): Status
    requires x.objType == QueueObjType ==> x.body.QueueBody?
  {
    if x.objType != QueueObjType then KobjTypeErr
    else if x.body.curNum > 0 then Success
    else if ticks == NO_WAIT then NoPendWait
    else if schedLock > 0 then Status.SchedDisable
    else Blocked
  }

  /** The state krhino_queue_recv of q by the running task a leaves and
      what it writes to *msg (None when it writes nothing before
      returning), for each status st it returns: the oldest message is
      taken from the front of a non-empty buffer; a task that may not
      wait gets NULL; otherwise a waits on q in priority order and the
      scheduler runs. */
  ghost predicate RecvOutcome(tasks0: map<TaskId, Tcb>, objects0: map<ObjId, KObject>, lists0: seq<seq<TaskId>>,
                              a: TaskId, q: ObjId, st: Status, msg: Option<int>,
                              tasks: map<TaskId, Tcb>, objects: map<ObjId, KObject>, lists: seq<seq<TaskId>>,
                              active: TaskId)
  {
    q in objects0 && a in tasks0 &&
    var x := objects0[q];
    var same := tasks == tasks0 && lists == lists0 && active == a;
    (st == KobjTypeErr ==> same && objects == objects0 && msg.None?) &&
    (st in {NoPendWait, Status.SchedDisable} ==> same && objects == objects0 && msg == Some(NULL)) &&
    (st == Success ==>
       same && x.body.QueueBody? && x.body.buf != [] && x.body.curNum > 0 && msg == Some(x.body.buf[0]) &&
       objects == objects0[q := x.(body := x.body.(buf := x.body.buf[1..], curNum := x.body.curNum - 1))]) &&
    (st == Blocked ==>
       var y := tasks0[a].(state := Pend, blkObj := Some(q));
       msg.None? && tasks == tasks0[a := y] &&
       objects == objects0[q := x.(blocked := PendInsert(tasks, x.blocked, a, y.prio))] &&
       HighestReady(tasks, active))
  }

  /** krhino_queue_recv by the running task, which may be the idle task
      only when the call does not make it wait; hasOut says whether the msg pointer is
      not NULL. */
  method QueueRecv(k: Kernel, queue: Option<ObjId>, ticks: nat, hasOut: bool) returns (st: Status, msg: Option<int>)
    requires k.Valid() && (queue.Some? ==> queue.value in k.objects)
    requires queue.Some? && hasOut && k.active == k.idle ==>
               RecvStatus(k.objects[queue.value], ticks, k.schedLock) != Blocked
    modifies k`tasks, k`objects, k`active, k.rq, k.rq.lists
    ensures k.Valid()
    ensures queue.None? || !hasOut ==>
              st == NullPtr && msg.None? && k.tasks == old(k.tasks) && k.objects == old(k.objects) &&
              k.active == old(k.active) && k.rq.lists[..] == old(k.rq.lists[..])
    ensures queue.Some? && hasOut ==>
              st == RecvStatus(old(k.objects[queue.value]), ticks, k.schedLock) &&
              RecvOutcome(old(k.tasks), old(k.objects), old(k.rq.lists[..]), old(k.active), queue.value, st, msg,
                          k.tasks, k.objects, k.rq.lists[..], k.active)
  {
    if queue.None? || !hasOut {
      return NullPtr, None;
    }
    st, msg := RecvObj(k, queue.value, ticks);
  }

  /** krhino_queue_recv past its NULL checks. */
  method RecvObj(k: Kernel, q: ObjId, ticks: nat) returns (st: Status, msg: Option<int>)
    requires k.Valid() && q in k.objects
    requires k.active == k.idle ==> RecvStatus(k.objects[q], ticks, k.schedLock) != Blocked
    modifies k`tasks, k`objects, k`active, k.rq, k.rq.lists
    ensures k.Valid()
    ensures st == RecvStatus(old(k.objects[q]), ticks, k.schedLock)
    ensures RecvOutcome(old(k.tasks), old(k.objects), old(k.rq.lists[..]), old(k.active), q, st, msg,
                        k.tasks, k.objects, k.rq.lists[..], k.active)
  {
    var x := k.objects[q];
    if x.objType != QueueObjType {
      return KobjTypeErr, None;
    }
    if x.body.curNum > 0 {
      var y := x.(body := x.body.(buf := x.body.buf[1..], curNum := x.body.curNum - 1));
      KernelPutObj(k.tasks, k.objects, k.rq.lists[..], k.active, k.idle, q, y);
      k.objects := k.objects[q := y];
      return Success, Some(x.body.buf[0]);
    }
    if ticks == NO_WAIT {
      return NoPendWait, Some(NULL);
    }
    if k.schedLock > 0 {
      return Status.SchedDisable, Some(NULL);
    }
    assert MayWait(k.objects[q]);
    PendToBlkObj(k, q);
    ghost var tasks1, objects1 := k.tasks, k.objects;
    CoreSched(k);
    assert k.tasks == tasks1 && k.objects == objects1;
    return Blocked, None;
  }

  // ---------------------------------------------------------------------
  // Fullness, flush and delete.

  /** What krhino_queue_is_full returns for a control block in state x. */
  function FullStatus(x: KObject): Status
    requires x.objType == QueueObjType ==> x.body.QueueBody?
  {
    if x.objType != QueueObjType then KobjTypeErr
    else if x.body.curNum >= x.body.size then QueueFull
    else QueueNotFull
  }

  /** krhino_queue_is_full, which changes nothing. */
  method QueueIsFull(k: Kernel, queue: Option<ObjId>) returns (st: Status)
    requires k.Valid() && (queue.Some? ==> queue.value in k.objects)
    ensures st == if queue.None? then NullPtr else FullStatus(k.objects[queue.value])
  {
    if queue.None? {
      return NullPtr;
    }
    var x := k.objects[queue.value];
    if x.objType != QueueObjType {
      return KobjTypeErr;
    }
    if x.body.curNum >= x.body.size {
      return QueueFull;
    }
    return QueueNotFull;
  }

  /** krhino_queue_is_full reports a full queue exactly when a send would
      be refused as full. */
  lemma FullIffSendRefused(x: KObject)
    requires x.objType == QueueObjType && x.body.QueueBody?
    ensures FullStatus(x) == QueueFull <==> SendStatus(x) == QueueFull
    ensures FullStatus(x) == QueueNotFull <==> SendStatus(x) == Success
  {
  }

  /** krhino_queue_flush: the buffer is emptied and the count is 0; the
      peak stays. */
  method QueueFlush(k: Kernel, queue: Option<ObjId>) returns (st: Status)
    requires k.Valid() && (queue.Some? ==> queue.value in k.objects)
    modifies k`objects
    ensures k.Valid()
    ensures st == if queue.None? then NullPtr
                  else if old(k.objects[queue.value].objType) != QueueObjType then KobjTypeErr
                  else Success
    ensures st != Success ==> k.objects == old(k.objects)
    ensures st == Success ==>
              var x := old(k.objects[queue.value]);
              k.objects == old(k.objects)[queue.value := x.(body := x.body.(buf := [], curNum := 0))]
  {
    if queue.None? {
      return NullPtr;
    }
    var q := queue.value;
    var x := k.objects[q];
    if x.objType != QueueObjType {
      return KobjTypeErr;
    }
    var y := x.(body := x.body.(buf := [], curNum := 0));
    KernelPutObj(k.tasks, k.objects, k.rq.lists[..], k.active, k.idle, q, y);
    k.objects := k.objects[q := y];
    return Success;
  }

  /** krhino_queue_del on a static queue: the type is reset to
      RHINO_OBJ_TYPE_NONE, every waiter is woken with BLK_DEL
      (pend_task_rm), the ring buffer is reset while cur_num keeps its
      value, and the scheduler runs. */
  method QueueDel(k: Kernel, queue: Option<ObjId>) returns (st: Status)
    requires k.Valid() && (queue.Some? ==> queue.value in k.objects)
    modifies k`tasks, k`objects, k`active, k.rq, k.rq.lists
    ensures k.Valid()
    ensures st == (if queue.None? then NullPtr
                   else if old(k.objects[queue.value].objType) != QueueObjType then KobjTypeErr
                   else if old(k.objects[queue.value].allocFlag) != StaticAlloc then KobjDelErr
                   else Success)
    ensures st != Success ==>
              k.tasks == old(k.tasks) && k.objects == old(k.objects) &&
              k.active == old(k.active) && k.rq.lists[..] == old(k.rq.lists[..])
    ensures st == Success ==>
              var q := queue.value;
              var x := old(k.objects[q]);
              AllPending(old(k.tasks), x.blocked) &&
              k.objects == old(k.objects)[q := x.(objType := NoObjType, blocked := [], body := x.body.(buf := []))] &&
              k.tasks == EndAll(old(k.tasks), x.blocked, BlkDel) &&
              (k.schedLock == 0 ==> HighestReady(k.tasks, k.active))
  {
    if queue.None? {
      return NullPtr;
    }
    var q := queue.value;
    var x := k.objects[q];
    if x.objType != QueueObjType {
      return KobjTypeErr;
    }
    if x.allocFlag != StaticAlloc {
      return KobjDelErr;
    }
    DelObj(k, q);
    return Success;
  }

  /** The deleting path of krhino_queue_del. */
  method DelObj(k: Kernel, q: ObjId)
    requires k.Valid() && q in k.objects && k.objects[q].body.QueueBody?
    modifies k`tasks, k`objects, k`active, k.rq, k.rq.lists
    ensures k.Valid()
    ensures var x := old(k.objects[q]);
            AllPending(old(k.tasks), x.blocked) &&
            k.objects == old(k.objects)[q := x.(objType := NoObjType, blocked := [], body := x.body.(buf := []))] &&
            k.tasks == EndAll(old(k.tasks), x.blocked, BlkDel) &&
            (k.schedLock == 0 ==> HighestReady(k.tasks, k.active))
  {
    ghost var objects0, x := k.objects, k.objects[q];
    Retype(k, q);
    PendEndAll(k, q, BlkDel);
    Overwrite(objects0, q, x.(objType := NoObjType), x.(objType := NoObjType, blocked := []));
    ResetRing(k, q);
    Overwrite(objects0, q, x.(objType := NoObjType, blocked := []),
              x.(objType := NoObjType, blocked := [], body := x.body.(buf := [])));
    CoreSched(k);
  }

  /** ringbuf_reset of a deleted queue, whose type is already
      RHINO_OBJ_TYPE_NONE. */
  method ResetRing(k: Kernel, q: ObjId)
    requires k.Valid() && q in k.objects && k.objects[q].objType == NoObjType && k.objects[q].body.QueueBody?
    modifies k`objects
    ensures k.Valid()
    ensures k.objects == old(k.objects)[q := old(k.objects[q]).(body := old(k.objects[q].body).(buf := []))]
  {
    var y := k.objects[q].(body := k.objects[q].body.(buf := []));
    KernelPutObj(k.tasks, k.objects, k.rq.lists[..], k.active, k.idle, q, y);
    k.objects := k.objects[q := y];
  }

  // ---------------------------------------------------------------------
  // Order.

  /** Messages leave in the order they came: a message sent to a queue
      nobody waits on goes behind the ones already there, so a receive
      that follows returns the oldest of them, or that message itself
      when it was alone, and leaves the rest in order. */
  lemma SendThenRecv(tasks0: map<TaskId, Tcb>, objects0: map<ObjId, KObject>, lists0: seq<seq<TaskId>>,
                     a: TaskId, q: ObjId, p: int, all: bool,
                     tasks1: map<TaskId, Tcb>, objects1: map<ObjId, KObject>, lists1: seq<seq<TaskId>>,
                     active1: TaskId, schedLock: nat, st: Status, msg: Option<int>,
                     tasks2: map<TaskId, Tcb>, objects2: map<ObjId, KObject>, lists2: seq<seq<TaskId>>,
                     active2: TaskId)
    requires q in objects0 && objects0[q].objType == QueueObjType && objects0[q].blocked == [] && ObjOk(objects0[q])
    requires SendOutcome(tasks0, objects0, lists0, a, q, p, all, Success, tasks1, objects1, lists1, active1, schedLock)
    requires objects1[q].objType == QueueObjType && st == RecvStatus(objects1[q], NO_WAIT, schedLock)
    requires RecvOutcome(tasks1, objects1, lists1, a, q, st, msg, tasks2, objects2, lists2, active2)
    ensures var buf := objects0[q].body.buf;
            st == Success && msg == Some(if buf == [] then p else buf[0]) &&
            objects2[q].body.buf == (buf + [p])[1..] && objects2[q].body.curNum == objects0[q].body.curNum
    ensures tasks2 == tasks0 && lists2 == lists0 && active2 == a
  {
    var x := objects0[q];
    assert objects1[q].body.buf == x.body.buf + [p];
    assert objects1[q].body.curNum == x.body.curNum + 1;
  }
}
