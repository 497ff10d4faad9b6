// The wait-list helpers of k_pend.c that the semaphore, queue, mutex and
// task code call: a task blocks on an object (pend_to_blk_obj), leaves it
// (pend_task_wakeup, pend_task_rm) or takes a new place in it after a
// priority change (pend_list_reorder). Every object here is created with
// BLK_POLICY_PRI, so a wait list is kept highest priority first, and
// waiters of equal priority keep their order of arrival.
module KPend {
  import opened KObj
  import opened KSched
  import opened KState

  // ---------------------------------------------------------------------
  // Priority-ordered insertion (pend_list_add).

  /** The place a waiter of priority prio takes in wait list b: after
      every waiter of the same or a higher priority, before the first of a
      lower one. */
  function PendPos(tasks: map<TaskId, Tcb>, b: seq<TaskId>, prio: nat): (i: nat)
    ensures i <= |b|
    ensures forall j :: 0 <= j < i ==> PrioOf(tasks, b[j]) <= prio
    ensures i < |b| ==> prio < PrioOf(tasks, b[i])
  {
    if b == [] || prio < PrioOf(tasks, b[0]) then 0
    else 1 + PendPos(tasks, b[1..], prio)
  }

  /** b with t inserted at its place for priority prio. */
  function PendInsert(tasks: map<TaskId, Tcb>, b: seq<TaskId>, t: TaskId, prio: nat): (r: seq<TaskId>)
    ensures |r| == |b| + 1
    ensures forall u :: u in r <==> u == t || u in b
  {
    var i := PendPos(tasks, b, prio);
    InsertAtMembers(b, i, t);
    b[..i] + [t] + b[i..]
  }

  /** Inserting a waiter at its place keeps a wait list in priority order. */
  lemma InsertOrdered(tasks: map<TaskId, Tcb>, b: seq<TaskId>, t: TaskId)
    requires PriOrdered(tasks, b) && t in tasks
    ensures PriOrdered(tasks, PendInsert(tasks, b, t, tasks[t].prio))
  {
    var prio := tasks[t].prio;
    var i := PendPos(tasks, b, prio);
    var r := PendInsert(tasks, b, t, prio);
    assert r == b[..i] + [t] + b[i..];
    forall a, c | 0 <= a < c < |r| ensures PrioOf(tasks, r[a]) <= PrioOf(tasks, r[c]) {
      if c == i {
        assert r[a] == b[a];
      } else if a == i {
        assert r[c] == b[c - 1];
        assert PrioOf(tasks, b[i]) <= PrioOf(tasks, b[c - 1]);
      } else {
        var a' := if a < i then a else a - 1;
        var c' := if c < i then c else c - 1;
        assert r[a] == b[a'] && r[c] == b[c'];
      }
    }
  }

  /** Taking a waiter out keeps a wait list in priority order. */
  lemma RemoveOrdered(tasks: map<TaskId, Tcb>, b: seq<TaskId>, t: TaskId)
    requires PriOrdered(tasks, b)
    ensures PriOrdered(tasks, Remove(b, t))
  {
    if t in b {
      var i := IndexOf(b, t);
      var r := b[..i] + b[i + 1..];
      assert Remove(b, t) == r;
      RemoveAtFacts(b, i);
      forall a, c | 0 <= a < c < |r| ensures PrioOf(tasks, r[a]) <= PrioOf(tasks, r[c]) {
        var a' := if a < i then a else a + 1;
        var c' := if c < i then c else c + 1;
        assert r[a] == b[a'] && r[c] == b[c'] && 0 <= a' < c' < |b|;
      }
    }
  }

  /** The order of a wait list depends only on its members' priorities. */
  lemma OrderedFrame(tasks: map<TaskId, Tcb>, tasks': map<TaskId, Tcb>, b: seq<TaskId>)
    requires PriOrdered(tasks, b)
    requires forall i :: 0 <= i < |b| ==> PrioOf(tasks', b[i]) == PrioOf(tasks, b[i])
    ensures PriOrdered(tasks', b)
  {
  }

  /** A list holding two different tasks has more than one element. */
  lemma TwoMembers(s: seq<TaskId>, a: TaskId, b: TaskId)
    requires a in s && b in s && a != b
    ensures |s| > 1
  {
    var i, j := IndexOf(s, a), IndexOf(s, b);
    assert i != j;
  }

  // ---------------------------------------------------------------------
  // How blocking, waking and reordering keep the invariant.

  /** t, pending on o or on nothing, takes control block x pending on o,
      and its place in o's wait list is taken again for x's priority. */
  lemma WaitersMove(tasks: map<TaskId, Tcb>, objects: map<ObjId, KObject>, t: TaskId, x: Tcb, o: ObjId, y: KObject)
    requires WaitersOk(tasks, objects) && t in tasks && o in objects
    requires IsPending(x.state) && x.blkObj == Some(o)
    requires IsPending(tasks[t].state) ==> tasks[t].blkObj == Some(o)
    requires y.blocked == PendInsert(tasks[t := x], Remove(objects[o].blocked, t), t, x.prio)
    ensures WaitersOk(tasks[t := x], objects[o := y])
  {
    var tasks' := tasks[t := x];
    var objects' := objects[o := y];
    var b0 := Remove(objects[o].blocked, t);
    assert t !in b0 && NoDup(b0);
    NoDupInsertAt(b0, PendPos(tasks', b0, x.prio), t);
    RemoveOrdered(tasks, objects[o].blocked, t);
    forall i | 0 <= i < |b0| ensures PrioOf(tasks', b0[i]) == PrioOf(tasks, b0[i]) {
      assert b0[i] in b0;
    }
    OrderedFrame(tasks, tasks', b0);
    InsertOrdered(tasks', b0, t);
    forall p | p in objects' ensures PriOrdered(tasks', objects'[p].blocked) {
      if p != o {
        var b := objects[p].blocked;
        forall i | 0 <= i < |b| ensures PrioOf(tasks', b[i]) == PrioOf(tasks, b[i]) {
          assert Waiting(tasks, b[i], p);
        }
        OrderedFrame(tasks, tasks', b);
      }
    }
    forall p, u | p in objects' && u in objects'[p].blocked ensures Waiting(tasks', u, p) {
      if u != t {
        assert u in objects[p].blocked;
        assert Waiting(tasks, u, p);
      }
    }
    forall u | u in tasks' && IsPending(tasks'[u].state)
      ensures tasks'[u].blkObj.Some? && tasks'[u].blkObj.value in objects' && u in objects'[tasks'[u].blkObj.value].blocked
    {
      if u != t {
        var v := tasks[u].blkObj.value;
        assert u in objects[v].blocked;
      }
    }
  }

  /** Waiter t of o takes control block x, no longer pending, and leaves
      o's wait list. */
  lemma WaitersLeave(tasks: map<TaskId, Tcb>, objects: map<ObjId, KObject>, t: TaskId, x: Tcb, o: ObjId, y: KObject)
    requires WaitersOk(tasks, objects) && Waiting(tasks, t, o) && o in objects
    requires !IsPending(x.state) && y.blocked == Remove(objects[o].blocked, t)
    ensures WaitersOk(tasks[t := x], objects[o := y])
  {
    var tasks' := tasks[t := x];
    var objects' := objects[o := y];
    RemoveOrdered(tasks, objects[o].blocked, t);
    forall p | p in objects' ensures PriOrdered(tasks', objects'[p].blocked) {
      var b := objects'[p].blocked;
      assert forall u :: u in b ==> u in objects[p].blocked && u != t;
      forall i | 0 <= i < |b| ensures PrioOf(tasks', b[i]) == PrioOf(tasks, b[i]) {
        assert b[i] in b;
      }
      assert PriOrdered(tasks, b);
      OrderedFrame(tasks, tasks', b);
    }
    forall p, u | p in objects' && u in objects'[p].blocked ensures Waiting(tasks', u, p) {
      assert u in objects[p].blocked;
      assert Waiting(tasks, u, p);
    }
    forall u | u in tasks' && IsPending(tasks'[u].state)
      ensures tasks'[u].blkObj.Some? && tasks'[u].blkObj.value in objects' && u in objects'[tasks'[u].blkObj.value].blocked
    {
      var v := tasks[u].blkObj.value;
      assert u in objects[v].blocked;
    }
  }

  /** A change of an object's wait list alone keeps ownership exact. */
  lemma OwnersBlocked(tasks: map<TaskId, Tcb>, objects: map<ObjId, KObject>, idle: TaskId, o: ObjId, y: KObject)
    requires OwnersOk(tasks, objects, idle) && o in objects
    requires y.objType == objects[o].objType && y.body == objects[o].body
    ensures OwnersOk(tasks, objects[o := y], idle)
  {
    var objects' := objects[o := y];
    forall t, m | t in tasks && m in tasks[t].mutexList ensures Held(objects', m, t) {
      assert Held(objects, m, t);
    }
  }

  /** The object states in which a task may wait: a semaphore without
      count, an empty queue, a mutex with an owner. */
  ghost predicate MayWait(x: KObject)
  {
    ObjOk(x) &&
    match x.objType
    case SemObjType => x.body.count == 0
    case QueueObjType => x.body.curNum == 0
    case MutexObjType => x.body.owner.Some?
    case NoObjType => false
    case TimerObjType => false
  }

  /** The active task, ready and not the idle task, leaves its ring and
      waits on o at its place for its priority. */
  lemma KernelBlock(tasks: map<TaskId, Tcb>, objects: map<ObjId, KObject>, lists: seq<seq<TaskId>>,
                    lists': seq<seq<TaskId>>, active: TaskId, idle: TaskId, o: ObjId)
    requires KernelOk(tasks, objects, lists, active, idle) && tasks[active].state == Rdy && active != idle
    requires o in objects && MayWait(objects[o])
    requires |lists'| == PRI_MAX
    requires forall p :: 0 <= p < PRI_MAX && p != tasks[active].prio ==> lists'[p] == lists[p]
    requires forall u :: u in lists'[tasks[active].prio] <==> u != active && u in lists[tasks[active].prio]
    ensures var x := tasks[active].(state := Pend, blkObj := Some(o));
            var tasks' := tasks[active := x];
            KernelOk(tasks', objects[o := objects[o].(blocked := PendInsert(tasks', Remove(objects[o].blocked, active), active, x.prio))],
                     lists', active, idle)
  {
    var x := tasks[active].(state := Pend, blkObj := Some(o));
    var tasks' := tasks[active := x];
    var y := objects[o].(blocked := PendInsert(tasks', Remove(objects[o].blocked, active), active, x.prio));
    ReadyLeave(tasks, lists, lists', active, x);
    WaitersMove(tasks, objects, active, x, o, y);
    OwnersPut(tasks, objects, idle, active, x);
    OwnersBlocked(tasks', objects, idle, o, y);
  }

  /** Waiter t of o takes control block x, ready or suspended, and leaves
      o's wait list; a ready x joins its ring. */
  lemma KernelWake(tasks: map<TaskId, Tcb>, objects: map<ObjId, KObject>, lists: seq<seq<TaskId>>,
                   lists': seq<seq<TaskId>>, active: TaskId, idle: TaskId, t: TaskId, o: ObjId, x: Tcb)
    requires KernelOk(tasks, objects, lists, active, idle) && Waiting(tasks, t, o) && o in objects
    requires TcbOk(x) && !IsPending(x.state) && x.mutexList == tasks[t].mutexList && x.prio == tasks[t].prio
    requires |lists'| == PRI_MAX
    requires x.state != Rdy ==> lists' == lists
    requires x.state == Rdy ==> forall p :: 0 <= p < PRI_MAX && p != x.prio ==> lists'[p] == lists[p]
    requires x.state == Rdy ==> forall u :: u in lists'[x.prio] <==> u == t || u in lists[x.prio]
    ensures KernelOk(tasks[t := x], objects[o := objects[o].(blocked := Remove(objects[o].blocked, t))], lists', active, idle)
  {
    var y := objects[o].(blocked := Remove(objects[o].blocked, t));
    if x.state == Rdy {
      ReadyJoin(tasks, lists, lists', t, x);
    } else {
      ReadyPut(tasks, lists, t, x);
    }
    WaitersLeave(tasks, objects, t, x, o, y);
    OwnersPut(tasks, objects, idle, t, x);
    OwnersBlocked(tasks[t := x], objects, idle, o, y);
    assert y.blocked != [] ==> objects[o].blocked != [];
  }

  /** Waiter t of o takes priority prio and its place for it in o's wait
      list. */
  lemma KernelReorder(tasks: map<TaskId, Tcb>, objects: map<ObjId, KObject>, lists: seq<seq<TaskId>>,
                      active: TaskId, idle: TaskId, t: TaskId, o: ObjId, prio: nat)
    requires KernelOk(tasks, objects, lists, active, idle) && Waiting(tasks, t, o) && o in objects && prio < PRI_MAX
    ensures var x := tasks[t].(prio := prio);
            var tasks' := tasks[t := x];
            KernelOk(tasks', objects[o := objects[o].(blocked := PendInsert(tasks', Remove(objects[o].blocked, t), t, prio))],
                     lists, active, idle)
  {
    var x := tasks[t].(prio := prio);
    var tasks' := tasks[t := x];
    var y := objects[o].(blocked := PendInsert(tasks', Remove(objects[o].blocked, t), t, prio));
    ReadyPut(tasks, lists, t, x);
    WaitersMove(tasks, objects, t, x, o, y);
    OwnersPut(tasks, objects, idle, t, x);
    OwnersBlocked(tasks', objects, idle, o, y);
  }

  // ---------------------------------------------------------------------
  // The operations.

  /** pend_to_blk_obj for the active task: it leaves the ready queue,
      becomes PEND on o and takes its place in o's wait list. The timeout
      goes to the tick list, which is not part of this model. */
  method PendToBlkObj(k: Kernel, o: ObjId)
    requires k.Valid() && k.active != k.idle && o in k.objects && MayWait(k.objects[o])
    modifies k`tasks, k`objects, k.rq, k.rq.lists
    ensures k.Ok()
    ensures var t := k.active;
            var x := old(k.tasks[t]).(state := Pend, blkObj := Some(o));
            k.tasks == old(k.tasks)[t := x] &&
            k.objects == old(k.objects)[o := old(k.objects[o]).(blocked := PendInsert(k.tasks, old(k.objects[o].blocked), t, x.prio))] &&
            k.rq.lists[..] == old(k.rq.lists[..])[x.prio := Remove(old(k.rq.lists[x.prio]), t)]
  {
    var t := k.active;
    var x := k.tasks[t];
    IdleListed(k.tasks, k.rq.lists[..], k.idle);
    assert k.idle in k.rq.lists[IDLE_PRI] && k.idle != t;
    ghost var tasks0, lists0 := k.tasks, k.rq.lists[..];
    assert t in k.rq.lists[x.prio];
    assert IDLE_PRI in k.rq.bitmap;
    if x.prio == IDLE_PRI {
      TwoMembers(k.rq.lists[x.prio], t, k.idle);
    }
    var fatal := k.rq.Rm(t, x.prio);
    assert IDLE_PRI in k.rq.bitmap;
    if fatal {
      assert false;
    }
    assert !Waiting(tasks0, t, o);
    assert t !in k.objects[o].blocked;
    KernelBlock(tasks0, k.objects, lists0, k.rq.lists[..], t, k.idle, o);
    x := x.(state := Pend, blkObj := Some(o));
    k.tasks := k.tasks[t := x];
    var y := k.objects[o].(blocked := PendInsert(k.tasks, k.objects[o].blocked, t, x.prio));
    k.objects := k.objects[o := y];
  }

  /** A waiter whose pend ended as how: a PEND task is ready, a
      PEND_SUSPENDED one stays suspended; it has no blocking object. */
  function EndedTcb(x: Tcb, how: BlkState): (y: Tcb)
    requires IsPending(x.state)
    ensures !IsPending(y.state) && y.blkObj.None? && y.blkState == how
    ensures (y.state == Rdy) == (x.state == Pend) && IsSuspended(y.state) == IsSuspended(x.state)
    ensures y.(state := x.state, blkObj := x.blkObj, blkState := x.blkState) == x
  {
    x.(state := if x.state == Pend then Rdy else Suspended, blkObj := None, blkState := how)
  }

  /** pend_task_wakeup (how is BLK_FINISH) and pend_task_rm (how is
      BLK_DEL): waiter t leaves the wait list of its object; a PEND task
      becomes ready and joins its ring by ready_list_add, a PEND_SUSPENDED
      task stays suspended; either way it no longer has a blocking
      object. The tick list is not part of this model; nor is
      mutex_task_pri_reset, which pend_task_rm only reaches for objects
      whose type has already been set to RHINO_OBJ_TYPE_NONE. */
  method PendTaskEnd(k: Kernel, t: TaskId, how: BlkState)
    requires k.Valid() && t in k.tasks && IsPending(k.tasks[t].state)
    modifies k`tasks, k`objects, k.rq, k.rq.lists
    ensures k.Valid()
    ensures var x := old(k.tasks[t]);
            var o := x.blkObj.value;
            o in old(k.objects) &&
            k.tasks == old(k.tasks)[t := EndedTcb(x, how)] &&
            k.objects == old(k.objects)[o := old(k.objects[o]).(blocked := Remove(old(k.objects[o].blocked), t))] &&
            (x.state == Pend ==>
               k.rq.lists[..] == old(k.rq.lists[..])[x.prio :=
                 if x.prio == old(k.tasks[k.active].prio) then old(k.rq.lists[x.prio]) + [t]
                 else [t] + old(k.rq.lists[x.prio])]) &&
            (x.state != Pend ==> k.rq.lists[..] == old(k.rq.lists[..]))
  {
    var x := k.tasks[t];
    var o := x.blkObj.value;
    assert Waiting(k.tasks, t, o);
    ghost var tasks0, lists0 := k.tasks, k.rq.lists[..];
    var y := k.objects[o].(blocked := Remove(k.objects[o].blocked, t));
    if x.state == Pend {
      assert t !in k.rq.lists[x.prio];
      ReadyListAdd(k, t, x.prio);
    }
    x := EndedTcb(x, how);
    KernelWake(tasks0, k.objects, lists0, k.rq.lists[..], k.active, k.idle, t, o, x);
    k.objects := k.objects[o := y];
    k.tasks := k.tasks[t := x];
  }

  /** The pending branch of task_pri_change: waiter t takes priority prio
      and pend_list_reorder moves it to its place for that priority in its
      object's wait list. */
  method PendListReorder(k: Kernel, t: TaskId, prio: nat)
    requires k.Valid() && t in k.tasks && IsPending(k.tasks[t].state) && prio < PRI_MAX
    modifies k`tasks, k`objects
    ensures k.Valid()
    ensures var x := old(k.tasks[t]);
            var o := x.blkObj.value;
            o in old(k.objects) &&
            k.tasks == old(k.tasks)[t := x.(prio := prio)] &&
            k.objects == old(k.objects)[o := old(k.objects[o]).(blocked :=
                           PendInsert(k.tasks, Remove(old(k.objects[o].blocked), t), t, prio))]
  {
    var x := k.tasks[t];
    var o := x.blkObj.value;
    assert Waiting(k.tasks, t, o);
    KernelReorder(k.tasks, k.objects, k.rq.lists[..], k.active, k.idle, t, o, prio);
    k.tasks := k.tasks[t := x.(prio := prio)];
    var y := k.objects[o].(blocked := PendInsert(k.tasks, Remove(k.objects[o].blocked, t), t, prio));
    k.objects := k.objects[o := y];
  }

  /** An object whose type is reset to RHINO_OBJ_TYPE_NONE on deletion
      keeps the invariant. */
  lemma KernelRetype(tasks: map<TaskId, Tcb>, objects: map<ObjId, KObject>, lists: seq<seq<TaskId>>,
                     active: TaskId, idle: TaskId, o: ObjId)
    requires KernelOk(tasks, objects, lists, active, idle) && o in objects
    ensures KernelOk(tasks, objects[o := objects[o].(objType := NoObjType)], lists, active, idle)
  {
    var objects' := objects[o := objects[o].(objType := NoObjType)];
    forall t, m | t in tasks && m in tasks[t].mutexList ensures Held(objects', m, t) {
      assert Held(objects, m, t);
    }
    forall p, u | p in objects' && u in objects'[p].blocked ensures Waiting(tasks, u, p) {
      assert u in objects[p].blocked;
    }
  }

  /** obj_type = RHINO_OBJ_TYPE_NONE, the first step of each delete. */
  method Retype(k: Kernel, o: ObjId)
    requires k.Valid() && o in k.objects
    modifies k`objects
    ensures k.Valid()
    ensures k.objects == old(k.objects)[o := old(k.objects[o]).(objType := NoObjType)]
  {
    KernelRetype(k.tasks, k.objects, k.rq.lists[..], k.active, k.idle, o);
    k.objects := k.objects[o := k.objects[o].(objType := NoObjType)];
  }

  /** All pending waiters in b, first to last, ended as how. */
  ghost predicate AllPending(tasks: map<TaskId, Tcb>, b: seq<TaskId>)
  {
    forall i :: 0 <= i < |b| ==> b[i] in tasks && IsPending(tasks[b[i]].state)
  }

  /** The tasks after each waiter in b has ended its pend as how. */
  function EndAll(tasks: map<TaskId, Tcb>, b: seq<TaskId>, how: BlkState): (r: map<TaskId, Tcb>)
    requires AllPending(tasks, b)
    ensures r.Keys == tasks.Keys
  {
    if b == [] then tasks
    else
      var u := b[|b| - 1];
      EndAll(tasks, b[..|b| - 1], how)[u := EndedTcb(tasks[u], how)]
  }

  /** EndAll ends exactly the tasks of b (each once when b has no
      duplicates) and leaves every other task as it was. */
  lemma {:induction false} EndAllIs(tasks: map<TaskId, Tcb>, b: seq<TaskId>, how: BlkState)
    requires AllPending(tasks, b)
    ensures forall u :: u in tasks && u !in b ==> EndAll(tasks, b, how)[u] == tasks[u]
    ensures forall u :: u in b ==> u in tasks && EndAll(tasks, b, how)[u] == EndedTcb(tasks[u], how)
  {
    if b != [] {
      var front := b[..|b| - 1];
      assert AllPending(tasks, front);
      EndAllIs(tasks, front, how);
      assert forall u :: u in b ==> u in front || u == b[|b| - 1];
    }
  }

  /** The while loops of the delete and wake-all paths: every waiter of o,
      first to last, leaves it through PendTaskEnd with how; the wait list
      ends empty and the tasks are EndAll of its waiters. */
  method PendEndAll(k: Kernel, o: ObjId, how: BlkState)
    requires k.Valid() && o in k.objects
    modifies k`tasks, k`objects, k.rq, k.rq.lists
    ensures k.Valid()
    ensures k.objects == old(k.objects)[o := old(k.objects[o]).(blocked := [])]
    ensures AllPending(old(k.tasks), old(k.objects[o].blocked))
    ensures k.tasks == EndAll(old(k.tasks), old(k.objects[o].blocked), how)
  {
    ghost var b0 := k.objects[o].blocked;
    ghost var tasks0, objects0, x0 := k.tasks, k.objects, k.objects[o];
    forall j | 0 <= j < |b0| ensures b0[j] in tasks0 && IsPending(tasks0[b0[j]].state) {
      assert b0[j] in b0;
      assert Waiting(tasks0, b0[j], o);
    }
    ghost var i := 0;
    while k.objects[o].blocked != []
      invariant k.Valid() && 0 <= i <= |b0| && NoDup(b0) && AllPending(tasks0, b0)
      invariant k.objects == objects0[o := x0.(blocked := b0[i..])]
      invariant AllPending(tasks0, b0[..i])
      invariant k.tasks == EndAll(tasks0, b0[..i], how)
      decreases |k.objects[o].blocked|
    {
      EndNext(k, o, how, tasks0, objects0, x0, b0, i);
      i := i + 1;
    }
    assert b0[..i] == b0;
  }

  /** One pass of PendEndAll's loop, from its invariant at i to its
      invariant at i + 1. */
  method EndNext(k: Kernel, o: ObjId, how: BlkState, ghost tasks0: map<TaskId, Tcb>,
                 ghost objects0: map<ObjId, KObject>, ghost x0: KObject, ghost b0: seq<TaskId>, ghost i: nat)
    requires k.Valid() && o in k.objects && NoDup(b0) && AllPending(tasks0, b0) && i < |b0|
    requires k.objects == objects0[o := x0.(blocked := b0[i..])]
    requires AllPending(tasks0, b0[..i]) && k.tasks == EndAll(tasks0, b0[..i], how)
    modifies k`tasks, k`objects, k.rq, k.rq.lists
    ensures k.Valid()
    ensures k.objects == objects0[o := x0.(blocked := b0[i + 1..])]
    ensures AllPending(tasks0, b0[..i + 1]) && k.tasks == EndAll(tasks0, b0[..i + 1], how)
  {
    EndAllSnoc(tasks0, b0, i, how);
    assert k.objects[o].blocked[0] == b0[i];
    assert b0[i..][1..] == b0[i + 1..];
    ghost var pre := k.objects;
    EndFirst(k, o, how);
    assert k.objects == pre[o := pre[o].(blocked := b0[i + 1..])];
    assert pre[o].(blocked := b0[i + 1..]) == x0.(blocked := b0[i + 1..]);
    Overwrite(objects0, o, x0.(blocked := b0[i..]), x0.(blocked := b0[i + 1..]));
  }

  /** EndAll over one more waiter of b0, which no earlier one repeats. */
  lemma EndAllSnoc(tasks0: map<TaskId, Tcb>, b0: seq<TaskId>, i: nat, how: BlkState)
    requires NoDup(b0) && AllPending(tasks0, b0) && i < |b0|
    ensures AllPending(tasks0, b0[..i]) && AllPending(tasks0, b0[..i + 1])
    ensures b0[i] in EndAll(tasks0, b0[..i], how) && EndAll(tasks0, b0[..i], how)[b0[i]] == tasks0[b0[i]]
    ensures EndAll(tasks0, b0[..i + 1], how) == EndAll(tasks0, b0[..i], how)[b0[i] := EndedTcb(tasks0[b0[i]], how)]
  {
    assert AllPending(tasks0, b0[..i]);
    assert b0[i] !in b0[..i];
    EndAllIs(tasks0, b0[..i], how);
    assert b0[..i + 1][..i] == b0[..i];
  }

  /** One pass of those loops: the first waiter of o leaves it. */
  method EndFirst(k: Kernel, o: ObjId, how: BlkState)
    requires k.Valid() && o in k.objects && k.objects[o].blocked != []
    modifies k`tasks, k`objects, k.rq, k.rq.lists
    ensures k.Valid()
    ensures var t := old(k.objects[o].blocked[0]);
            t in old(k.tasks) && IsPending(old(k.tasks[t].state)) &&
            k.tasks == old(k.tasks)[t := EndedTcb(old(k.tasks[t]), how)] &&
            k.objects == old(k.objects)[o := old(k.objects[o]).(blocked := old(k.objects[o].blocked[1..]))]
  {
    var b := k.objects[o].blocked;
    var t := b[0];
    assert Waiting(k.tasks, t, o);
    PendTaskEnd(k, t, how);
    assert IndexOf(b, t) == 0;
    assert b[..0] + b[1..] == b[1..];
    assert Remove(b, t) == b[1..];
  }
}
