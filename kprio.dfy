// Priority inheritance: the bounds a task's mutexes put on its priority
// (mutex_pri_limit, mutex_pri_look in k_mutex.c) and the priority change
// that walks the chain of mutex owners (task_pri_change in k_task.c).
module KPrio {
  import opened KObj
  import opened KSched
  import opened KState
  import opened KPend

  // ---------------------------------------------------------------------
  // Specification functions.

  /** Somebody waits on object m. */
  predicate Waited(objects: map<ObjId, KObject>, m: ObjId)
  {
    m in objects && objects[m].blocked != []
  }

  /** h, lowered to the priority of the first waiter of m if that is
      higher. */
  function Lower(tasks: map<TaskId, Tcb>, objects: map<ObjId, KObject>, h: nat, m: ObjId): nat
  {
    if Waited(objects, m) && PrioOf(tasks, objects[m].blocked[0]) < h then PrioOf(tasks, objects[m].blocked[0])
    else h
  }

  /** The highest priority (smallest number) among pri and the first
      waiters of the mutexes in ms, folded over ms from its front. */
  function MinHeadPri(tasks: map<TaskId, Tcb>, objects: map<ObjId, KObject>, ms: seq<ObjId>, pri: nat): (r: nat)
    ensures r <= pri
  {
    if ms == [] then pri
    else Lower(tasks, objects, MinHeadPri(tasks, objects, ms[..|ms| - 1], pri), ms[|ms| - 1])
  }

  /** MinHeadPri is the minimum: no first waiter of a mutex in ms has a
      higher priority, and the result is pri or one of theirs. */
  lemma {:induction false} MinHeadPriIs(tasks: map<TaskId, Tcb>, objects: map<ObjId, KObject>, ms: seq<ObjId>, pri: nat)
    ensures var r := MinHeadPri(tasks, objects, ms, pri);
            (forall i :: 0 <= i < |ms| && Waited(objects, ms[i]) ==> r <= PrioOf(tasks, objects[ms[i]].blocked[0])) &&
            (r == pri || exists i :: 0 <= i < |ms| && Waited(objects, ms[i]) && r == PrioOf(tasks, objects[ms[i]].blocked[0]))
  {
    if ms != [] {
      var front := ms[..|ms| - 1];
      MinHeadPriIs(tasks, objects, front, pri);
      assert forall i :: 0 <= i < |front| ==> front[i] == ms[i];
      var r0 := MinHeadPri(tasks, objects, front, pri);
      if r0 != pri && MinHeadPri(tasks, objects, ms, pri) == r0 {
        var i :| 0 <= i < |front| && Waited(objects, front[i]) && r0 == PrioOf(tasks, objects[front[i]].blocked[0]);
        assert ms[i] == front[i];
      }
    }
  }

  /** ms without the mutex rel (all of ms when rel is NULL). */
  function Without(ms: seq<ObjId>, rel: Option<ObjId>): (r: seq<ObjId>)
    ensures forall m :: m in r <==> m in ms && rel != Some(m)
    ensures NoDup(ms) ==> NoDup(r)
  {
    if ms == [] then []
    else
      var rest := Without(ms[1..], rel);
      if rel == Some(ms[0]) then rest
      else
        assert NoDup(ms) ==> ms[0] !in ms[1..];
        [ms[0]] + rest
  }

  /** Without works element by element, so it can be built from the front
      of a list. */
  lemma {:induction false} WithoutSnoc(ms: seq<ObjId>, m: ObjId, rel: Option<ObjId>)
    ensures Without(ms + [m], rel) == Without(ms, rel) + (if rel == Some(m) then [] else [m])
  {
    if ms != [] {
      assert (ms + [m])[1..] == ms[1..] + [m];
      WithoutSnoc(ms[1..], m, rel);
    }
  }

  /** Without leaves a list that does not hold rel as it is. */
  lemma {:induction false} WithoutAbsent(ms: seq<ObjId>, rel: Option<ObjId>)
    requires rel.None? || rel.value !in ms
    ensures Without(ms, rel) == ms
  {
    if ms != [] {
      WithoutAbsent(ms[1..], rel);
    }
  }

  /** A mutex pushed on the front of a task's mutex list by lock and
      unlinked by release leaves the list as it was. */
  lemma PushThenUnlink(ms: seq<ObjId>, m: ObjId)
    requires m !in ms
    ensures Without([m] + ms, Some(m)) == ms
  {
    assert ([m] + ms)[1..] == ms;
    WithoutAbsent(ms, Some(m));
  }

  // ---------------------------------------------------------------------
  // The mutex walks.

  /** mutex_pri_limit: the highest priority t may be given when pri is
      asked for, which its mutexes' first waiters bound from above. */
  method MutexPriLimit(k: Kernel, t: TaskId, pri: nat) returns (high: nat)
    requires t in k.tasks
    ensures high == MinHeadPri(k.tasks, k.objects, k.tasks[t].mutexList, pri)
  {
    var ms := k.tasks[t].mutexList;
    high := pri;
    var p := pri;
    var i := 0;
    while i < |ms|
      invariant 0 <= i <= |ms|
      invariant high == MinHeadPri(k.tasks, k.objects, ms[..i], pri)
      invariant high <= p
    {
      var m := ms[i];
      if m in k.objects && k.objects[m].blocked != [] {
        p := PrioOf(k.tasks, k.objects[m].blocked[0]);
      }
      if p < high {
        high := p;
      }
      assert ms[..i + 1][..i] == ms[..i];
      i := i + 1;
    }
    assert ms[..i] == ms;
  }

  /** mutex_pri_look: rel (if any) is unlinked from t's mutex list, and
      the result is the highest priority among t's base priority and the
      first waiters of the mutexes t still holds. */
  method MutexPriLook(k: Kernel, t: TaskId, rel: Option<ObjId>) returns (newPri: nat)
    requires t in k.tasks
    modifies k`tasks
    ensures k.tasks == old(k.tasks)[t := old(k.tasks[t]).(mutexList := Without(old(k.tasks[t].mutexList), rel))]
    ensures newPri == MinHeadPri(k.tasks, k.objects, k.tasks[t].mutexList, k.tasks[t].bPrio)
  {
    var x := k.tasks[t];
    var kept;
    kept, newPri := LookList(k.tasks, k.objects, x.mutexList, rel, x.bPrio);
    var y := x.(mutexList := kept);
    PrioOfOnlyPrio(k.tasks, t, y);
    MinHeadPriFrame(k.tasks, k.tasks[t := y], k.objects, kept, x.bPrio);
    k.tasks := k.tasks[t := y];
  }

  /** The loop of mutex_pri_look over the list ms: the mutexes other than
      rel, and the fold of their first waiters' priorities into pri. */
  method LookList(tasks: map<TaskId, Tcb>, objects: map<ObjId, KObject>, ms: seq<ObjId>, rel: Option<ObjId>, pri: nat)
    returns (kept: seq<ObjId>, newPri: nat)
    ensures kept == Without(ms, rel)
    ensures newPri == MinHeadPri(tasks, objects, kept, pri)
  {
    newPri := pri;
    var p := newPri;
    kept := [];
    var i := 0;
    while i < |ms|
      invariant 0 <= i <= |ms|
      invariant kept == Without(ms[..i], rel)
      invariant newPri == MinHeadPri(tasks, objects, kept, pri)
      invariant newPri <= p
    {
      var m := ms[i];
      LookStep(tasks, objects, ms, i, rel, pri);
      if rel == Some(m) {
        i := i + 1;
        continue;
      }
      if m in objects && objects[m].blocked != [] {
        p := PrioOf(tasks, objects[m].blocked[0]);
      }
      if newPri > p {
        newPri := p;
      }
      kept := kept + [m];
      i := i + 1;
    }
    assert ms[..i] == ms;
  }

  /** One pass of LookList: the next mutex joins the kept list unless it
      is rel, and its first waiter is folded in. */
  lemma LookStep(tasks: map<TaskId, Tcb>, objects: map<ObjId, KObject>, ms: seq<ObjId>, i: nat, rel: Option<ObjId>, pri: nat)
    requires i < |ms|
    ensures Without(ms[..i + 1], rel) == Without(ms[..i], rel) + (if rel == Some(ms[i]) then [] else [ms[i]])
    ensures var kept := Without(ms[..i], rel);
            MinHeadPri(tasks, objects, kept + [ms[i]], pri) == Lower(tasks, objects, MinHeadPri(tasks, objects, kept, pri), ms[i])
  {
    assert ms[..i + 1] == ms[..i] + [ms[i]];
    WithoutSnoc(ms[..i], ms[i], rel);
    var kept := Without(ms[..i], rel);
    assert (kept + [ms[i]])[..|kept|] == kept;
  }

  /** A change of t that keeps its priority keeps every PrioOf. */
  lemma PrioOfOnlyPrio(tasks: map<TaskId, Tcb>, t: TaskId, y: Tcb)
    requires t in tasks && y.prio == tasks[t].prio
    ensures forall u :: PrioOf(tasks[t := y], u) == PrioOf(tasks, u)
  {
  }

  /** MinHeadPri depends on the tasks only through their priorities. */
  lemma {:induction false} MinHeadPriFrame(tasks: map<TaskId, Tcb>, tasks': map<TaskId, Tcb>,
                                           objects: map<ObjId, KObject>, ms: seq<ObjId>, pri: nat)
    requires forall u :: PrioOf(tasks', u) == PrioOf(tasks, u)
    ensures MinHeadPri(tasks', objects, ms, pri) == MinHeadPri(tasks, objects, ms, pri)
  {
    if ms != [] {
      MinHeadPriFrame(tasks, tasks', objects, ms[..|ms| - 1], pri);
    }
  }

  /** Dropping mutexes from a task's list keeps the invariant. */
  lemma KernelUnlink(tasks: map<TaskId, Tcb>, objects: map<ObjId, KObject>, lists: seq<seq<TaskId>>,
                     active: TaskId, idle: TaskId, t: TaskId, rel: Option<ObjId>)
    requires KernelOk(tasks, objects, lists, active, idle) && t in tasks
    ensures KernelOk(tasks[t := tasks[t].(mutexList := Without(tasks[t].mutexList, rel))], objects, lists, active, idle)
  {
    var x := tasks[t].(mutexList := Without(tasks[t].mutexList, rel));
    var tasks' := tasks[t := x];
    ReadyPut(tasks, lists, t, x);
    WaitersPut(tasks, objects, t, x);
    forall u, m | u in tasks' && m in tasks'[u].mutexList ensures Held(objects, m, u) {
      assert m in tasks[u].mutexList;
    }
  }

  // ---------------------------------------------------------------------
  // task_pri_change.

  /** Only the priorities of tasks differ. */
  ghost predicate PrioOnly(tasks: map<TaskId, Tcb>, tasks': map<TaskId, Tcb>)
  {
    tasks'.Keys == tasks.Keys &&
    forall u :: u in tasks ==> tasks'[u] == tasks[u].(prio := tasks'[u].prio)
  }

  /** Only the order of the wait lists differs. */
  ghost predicate OrderOnly(objects: map<ObjId, KObject>, objects': map<ObjId, KObject>)
  {
    objects'.Keys == objects.Keys &&
    forall o :: o in objects ==>
      objects'[o] == objects[o].(blocked := objects'[o].blocked) &&
      forall u :: u in objects'[o].blocked <==> u in objects[o].blocked
  }

  /** A new priority for one task changes only priorities. */
  lemma PrioOnlyPut(tasks: map<TaskId, Tcb>, t: TaskId, pri: nat)
    requires t in tasks
    ensures PrioOnly(tasks, tasks[t := tasks[t].(prio := pri)])
  {
  }

  /** A wait list that keeps its members changes only order. */
  lemma OrderOnlyPut(objects: map<ObjId, KObject>, o: ObjId, b: seq<TaskId>)
    requires o in objects && forall u :: u in b <==> u in objects[o].blocked
    ensures OrderOnly(objects, objects[o := objects[o].(blocked := b)])
  {
  }

  /** The ready rings after ready task t moves from priority p to q: out of
      ring p, then at the head of ring q if t is running, at its tail
      otherwise. */
  function RingsMoved(lists: seq<seq<TaskId>>, t: TaskId, p: nat, q: nat, running: bool): seq<seq<TaskId>>
    requires p < |lists| && q < |lists|
  {
    var l := lists[p := Remove(lists[p], t)];
    l[q := if running then [t] + l[q] else l[q] + [t]]
  }

  /** A ready task other than the idle task moves to another ring. */
  lemma KernelMove(tasks: map<TaskId, Tcb>, objects: map<ObjId, KObject>, lists: seq<seq<TaskId>>,
                   active: TaskId, idle: TaskId, t: TaskId, q: nat, running: bool)
    requires KernelOk(tasks, objects, lists, active, idle) && t in tasks && tasks[t].state == Rdy && t != idle
    requires q < PRI_MAX && q != tasks[t].prio && NoDup(lists[tasks[t].prio])
    ensures KernelOk(tasks[t := tasks[t].(prio := q)], objects,
                     RingsMoved(lists, t, tasks[t].prio, q, running), active, idle)
  {
    var p := tasks[t].prio;
    var x := tasks[t].(prio := q);
    var x0 := x.(state := Suspended);
    var l1 := lists[p := Remove(lists[p], t)];
    var l2 := RingsMoved(lists, t, p, q, running);
    ReadyLeave(tasks, lists, l1, t, x0);
    ReadyJoin(tasks[t := x0], l1, l2, t, x);
    assert tasks[t := x0][t := x] == tasks[t := x];
    WaitersPut(tasks, objects, t, x);
    OwnersPut(tasks, objects, idle, t, x);
  }

  /** After waiter t of mutex-or-other object o has gone from priority
      oldPri to pri: whether the owner of o must follow (more), and if so
      the owner (next) and its new priority (nextPri). The owner follows
      when it now has a lower priority than t, or when it had t's old
      priority and mutex_pri_look finds it another one. */
  ghost predicate ChainNext(tasks: map<TaskId, Tcb>, objects: map<ObjId, KObject>, o: ObjId, oldPri: nat, pri: nat,
                            more: bool, next: TaskId, nextPri: nat)
    requires o in objects
  {
    (more <==> objects[o].objType == MutexObjType && objects[o].body.MutexBody? && objects[o].body.owner.Some? &&
               var owner := objects[o].body.owner.value;
               owner in tasks &&
               (tasks[owner].prio > pri ||
                (tasks[owner].prio == oldPri &&
                 MinHeadPri(tasks, objects, tasks[owner].mutexList, tasks[owner].bPrio) != tasks[owner].prio))) &&
    (more ==> Held(objects, o, next) && next in tasks &&
              if tasks[next].prio > pri then nextPri == pri
              else nextPri == MinHeadPri(tasks, objects, tasks[next].mutexList, tasks[next].bPrio))
  }

  /** One pass of task_pri_change's do-while loop on t with new_pri pri:
      a ready task changes ring, a suspended or sleeping task just takes
      the priority, a pending task also takes its new place in its wait
      list; when it waits on a mutex whose owner must follow, the owner
      and the owner's new priority are returned for the next pass. A task
      in any other state is refused with RHINO_INV_TASK_STATE, which is
      reported to k_err_proc. */
  method PriStep(k: Kernel, t: TaskId, pri: nat) returns (st: Status, more: bool, next: TaskId, nextPri: nat)
    requires k.Valid() && t in k.tasks && t != k.idle && pri < PRI_MAX
    modifies k`tasks, k`objects, k`errors, k.rq, k.rq.lists
    ensures k.Valid() && PrioOnly(old(k.tasks), k.tasks) && OrderOnly(old(k.objects), k.objects)
    ensures more ==> st == Success && next in k.tasks && next != k.idle && nextPri < PRI_MAX
    ensures st == Success || st == InvTaskState
    ensures st == Success ==> k.errors == old(k.errors)
    ensures st == InvTaskState ==> k.errors == old(k.errors) + [InvTaskState]
    ensures old(k.tasks[t].prio) == pri ==>
              st == Success && !more && k.tasks == old(k.tasks) && k.objects == old(k.objects) &&
              k.rq.lists[..] == old(k.rq.lists[..])
    ensures old(k.tasks[t].prio) != pri && (old(k.tasks[t].state) == Seed || old(k.tasks[t].state) == Deleted) ==>
              st == InvTaskState && !more && k.tasks == old(k.tasks) && k.objects == old(k.objects) &&
              k.rq.lists[..] == old(k.rq.lists[..])
    ensures old(k.tasks[t].prio) != pri && old(k.tasks[t].state) == Rdy ==>
              st == Success && !more && k.tasks == old(k.tasks)[t := old(k.tasks[t]).(prio := pri)] &&
              k.objects == old(k.objects) &&
              k.rq.lists[..] == RingsMoved(old(k.rq.lists[..]), t, old(k.tasks[t].prio), pri, t == k.active)
    ensures old(k.tasks[t].prio) != pri && old(k.tasks[t].state) in {Suspended, Sleep, SleepSuspended} ==>
              st == Success && !more && k.tasks == old(k.tasks)[t := old(k.tasks[t]).(prio := pri)] &&
              k.objects == old(k.objects) && k.rq.lists[..] == old(k.rq.lists[..])
    ensures old(k.tasks[t].prio) != pri && IsPending(old(k.tasks[t].state)) ==>
              var x := old(k.tasks[t]);
              var o := x.blkObj.value;
              st == Success && o in old(k.objects) && k.tasks == old(k.tasks)[t := x.(prio := pri)] &&
              k.objects == old(k.objects)[o := old(k.objects[o]).(blocked :=
                             PendInsert(k.tasks, Remove(old(k.objects[o].blocked), t), t, pri))] &&
              k.rq.lists[..] == old(k.rq.lists[..]) &&
              ChainNext(k.tasks, k.objects, o, x.prio, pri, more, next, nextPri)
  {
    more, next, nextPri := false, t, pri;
    var x := k.tasks[t];
    if x.prio == pri {
      return Success, more, next, nextPri;
    }
    ghost var tasks0, objects0, errors0 := k.tasks, k.objects, k.errors;
    PrioOnlyPut(k.tasks, t, pri);
    if x.state == Rdy {
      st := ReadyPrio(k, t, pri);
      assert k.objects == objects0 && k.errors == errors0;
    } else if x.state == Sleep || x.state == Suspended || x.state == SleepSuspended {
      st := SetPrio(k, t, pri);
    } else if IsPending(x.state) {
      var o := x.blkObj.value;
      assert Waiting(k.tasks, t, o);
      assert t in k.objects[o].blocked;
      st, more, next, nextPri := PendPriStep(k, t, pri);
      OrderOnlyPut(objects0, o, k.objects[o].blocked);
    } else {
      k.errors := k.errors + [InvTaskState];
      st := InvTaskState;
    }
  }

  /** The ready branch: ready_list_rm, the new priority, then
      ready_list_add_head for the running task and ready_list_add_tail for
      any other. */
  method ReadyPrio(k: Kernel, t: TaskId, pri: nat) returns (st: Status)
    requires k.Valid() && t in k.tasks && t != k.idle && pri < PRI_MAX
    requires k.tasks[t].state == Rdy && k.tasks[t].prio != pri
    modifies k`tasks, k.rq, k.rq.lists
    ensures k.Valid() && st == Success
    ensures k.tasks == old(k.tasks)[t := old(k.tasks[t]).(prio := pri)]
    ensures k.rq.lists[..] == RingsMoved(old(k.rq.lists[..]), t, old(k.tasks[t].prio), pri, t == k.active)
  {
    var x := k.tasks[t];
    IdleListed(k.tasks, k.rq.lists[..], k.idle);
    assert IDLE_PRI in k.rq.bitmap;
    if x.prio == IDLE_PRI {
      TwoMembers(k.rq.lists[x.prio], t, k.idle);
    }
    ghost var lists0 := k.rq.lists[..];
    assert t in k.rq.lists[x.prio];
    var fatal := k.rq.Rm(t, x.prio);
    assert IDLE_PRI in k.rq.bitmap;
    if fatal {
      assert false;
    }
    KernelMove(k.tasks, k.objects, lists0, k.active, k.idle, t, pri, t == k.active);
    k.tasks := k.tasks[t := x.(prio := pri)];
    assert t !in k.rq.lists[pri];
    if t == k.active {
      k.rq.AddHead(t, pri);
    } else {
      k.rq.AddTail(t, pri);
    }
    st := Success;
  }

  /** A task that is neither ready nor pending takes priority pri. */
  method SetPrio(k: Kernel, t: TaskId, pri: nat) returns (st: Status)
    requires k.Valid() && t in k.tasks && t != k.idle && pri < PRI_MAX
    requires k.tasks[t].state != Rdy && !IsPending(k.tasks[t].state)
    modifies k`tasks
    ensures k.Valid() && st == Success && k.objects == old(k.objects) && k.errors == old(k.errors)
    ensures k.rq.lists[..] == old(k.rq.lists[..])
    ensures k.tasks == old(k.tasks)[t := old(k.tasks[t]).(prio := pri)]
  {
    var x := k.tasks[t].(prio := pri);
    KernelPut(k.tasks, k.objects, k.rq.lists[..], k.active, k.idle, t, x);
    k.tasks := k.tasks[t := x];
    st := Success;
  }

  /** The pending branch of one pass of task_pri_change. */
  method PendPriStep(k: Kernel, t: TaskId, pri: nat) returns (st: Status, more: bool, next: TaskId, nextPri: nat)
    requires k.Valid() && t in k.tasks && t != k.idle && pri < PRI_MAX && IsPending(k.tasks[t].state)
    modifies k`tasks, k`objects
    ensures k.Valid() && st == Success && k.errors == old(k.errors) && k.rq.lists[..] == old(k.rq.lists[..])
    ensures more ==> next in k.tasks && next != k.idle && nextPri < PRI_MAX
    ensures var x := old(k.tasks[t]);
            var o := x.blkObj.value;
            o in old(k.objects) && k.tasks == old(k.tasks)[t := x.(prio := pri)] &&
            k.objects == old(k.objects)[o := old(k.objects[o]).(blocked :=
                           PendInsert(k.tasks, Remove(old(k.objects[o].blocked), t), t, pri))] &&
            ChainNext(k.tasks, k.objects, o, x.prio, pri, more, next, nextPri)
  {
    var oldPri := k.tasks[t].prio;
    var o := k.tasks[t].blkObj.value;
    ghost var errors0, lists0 := k.errors, k.rq.lists[..];
    assert Waiting(k.tasks, t, o);
    assert t in k.objects[o].blocked;
    PendListReorder(k, t, pri);
    assert k.errors == errors0 && k.rq.lists[..] == lists0;
    assert t in k.objects[o].blocked;
    more, next, nextPri := ChainStep(k, o, oldPri, pri);
    st := Success;
  }

  /** The end of the pending branch: after a waiter of o has gone from
      priority oldPri to pri, decide whether the owner of o, when o is a
      mutex, must follow, and to which priority. */
  method ChainStep(k: Kernel, o: ObjId, oldPri: nat, pri: nat) returns (more: bool, next: TaskId, nextPri: nat)
    requires k.Valid() && o in k.objects && k.objects[o].blocked != [] && pri < PRI_MAX
    modifies k`tasks
    ensures k.tasks == old(k.tasks)
    ensures more ==> next in k.tasks && next != k.idle && nextPri < PRI_MAX
    ensures ChainNext(k.tasks, k.objects, o, oldPri, pri, more, next, nextPri)
  {
    more, next, nextPri := false, 0, pri;
    if k.objects[o].objType == MutexObjType {
      var owner := k.objects[o].body.owner.value;
      assert Held(k.objects, o, owner);
      if k.tasks[owner].prio > pri {
        more, next := true, owner;
      } else if k.tasks[owner].prio == oldPri {
        ghost var tasks0 := k.tasks;
        var np := MutexPriLook(k, owner, None);
        WithoutAbsent(tasks0[owner].mutexList, None);
        assert tasks0[owner].(mutexList := tasks0[owner].mutexList) == tasks0[owner];
        assert k.tasks == tasks0;
        if np != k.tasks[owner].prio {
          more, next, nextPri := true, owner, np;
        }
      }
    }
  }

  /** task_pri_change: t takes priority pri, and the change is passed on
      along the chain of mutex owners for as long as an owner's priority
      has to follow its waiters'. fuel bounds the passes after the first. */
  method TaskPriChange(k: Kernel, t: TaskId, pri: nat, fuel: nat) returns (st: Status)
    requires k.Valid() && t in k.tasks && t != k.idle && pri < PRI_MAX
    modifies k`tasks, k`objects, k`errors, k.rq, k.rq.lists
    ensures k.Valid() && PrioOnly(old(k.tasks), k.tasks) && OrderOnly(old(k.objects), k.objects)
    ensures st == Success || st == InvTaskState
    ensures st == Success ==> k.errors == old(k.errors)
    ensures st == InvTaskState ==> k.errors == old(k.errors) + [InvTaskState]
    ensures old(k.tasks[t].prio) == pri ==>
              st == Success && k.tasks == old(k.tasks) && k.objects == old(k.objects) &&
              k.rq.lists[..] == old(k.rq.lists[..])
    ensures old(k.tasks[t].prio) != pri && (old(k.tasks[t].state) == Seed || old(k.tasks[t].state) == Deleted) ==>
              st == InvTaskState && k.tasks == old(k.tasks) && k.objects == old(k.objects) &&
              k.rq.lists[..] == old(k.rq.lists[..])
    ensures old(k.tasks[t].prio) != pri && old(k.tasks[t].state) == Rdy ==>
              st == Success && k.tasks == old(k.tasks)[t := old(k.tasks[t]).(prio := pri)] &&
              k.objects == old(k.objects) &&
              k.rq.lists[..] == RingsMoved(old(k.rq.lists[..]), t, old(k.tasks[t].prio), pri, t == k.active)
    ensures old(k.tasks[t].prio) != pri && old(k.tasks[t].state) in {Suspended, Sleep, SleepSuspended} ==>
              st == Success && k.tasks == old(k.tasks)[t := old(k.tasks[t]).(prio := pri)] &&
              k.objects == old(k.objects) && k.rq.lists[..] == old(k.rq.lists[..])
  {
    var more, next, nextPri;
    st, more, next, nextPri := PriStep(k, t, pri);
    if more {
      ghost var tasks1, objects1 := k.tasks, k.objects;
      st := PriChain(k, next, nextPri, fuel);
      PrioOnlyTrans(old(k.tasks), tasks1, k.tasks);
      OrderOnlyTrans(old(k.objects), objects1, k.objects);
    }
  }

  /** The passes of task_pri_change after the first, along the chain of
      mutex owners starting at t with priority pri. */
  method PriChain(k: Kernel, t: TaskId, pri: nat, fuel: nat) returns (st: Status)
    requires k.Valid() && t in k.tasks && t != k.idle && pri < PRI_MAX
    modifies k`tasks, k`objects, k`errors, k.rq, k.rq.lists
    ensures k.Valid() && PrioOnly(old(k.tasks), k.tasks) && OrderOnly(old(k.objects), k.objects)
    ensures st == Success || st == InvTaskState
    ensures st == Success ==> k.errors == old(k.errors)
    ensures st == InvTaskState ==> k.errors == old(k.errors) + [InvTaskState]
  {
    var more: bool, next: TaskId, nextPri: nat := true, t, pri;
    st := Success;
    var f := fuel;
    while more && f > 0
      invariant k.Valid() && PrioOnly(old(k.tasks), k.tasks) && OrderOnly(old(k.objects), k.objects)
      invariant st == Success && k.errors == old(k.errors)
      invariant more ==> next in k.tasks && next != k.idle && nextPri < PRI_MAX
      decreases f
    {
      ghost var tasks1, objects1 := k.tasks, k.objects;
      st, more, next, nextPri := PriStep(k, next, nextPri);
      PrioOnlyTrans(old(k.tasks), tasks1, k.tasks);
      OrderOnlyTrans(old(k.objects), objects1, k.objects);
      if st != Success {
        return;
      }
      f := f - 1;
    }
  }

  lemma PrioOnlyTrans(a: map<TaskId, Tcb>, b: map<TaskId, Tcb>, c: map<TaskId, Tcb>)
    requires PrioOnly(a, b) && PrioOnly(b, c)
    ensures PrioOnly(a, c)
  {
  }

  lemma OrderOnlyTrans(a: map<ObjId, KObject>, b: map<ObjId, KObject>, c: map<ObjId, KObject>)
    requires OrderOnly(a, b) && OrderOnly(b, c)
    ensures OrderOnly(a, c)
  {
  }
}
