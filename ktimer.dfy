// Software timers of the Rhino kernel (k_timer.c). Applications do not touch
// the timer list: the API enqueues commands on the timer task's message
// queue, and the timer task applies them (cmd_proc) and fires expired timers
// (timer_cb_proc). The list is kept by match - g_timer_count, computed in
// 64-bit unsigned arithmetic as sys_time_t is; a callback that would run is
// recorded instead of executed.
module KTimer {
  import opened KObj

  const U64: int := 0x1_0000_0000_0000_0000
  const HALF64: int := 0x8000_0000_0000_0000
  /** MAX_TIMER_TICKS: ((sys_time_t)-1) >> 1. */
  const MAX_TIMER_TICKS: nat := 0x7FFF_FFFF_FFFF_FFFF
  const NULL: int := 0

  type TimerId = nat

  /** a - b on sys_time_t (uint64_t). */
  function Sub64(a: int, b: int): (r: nat)
    ensures r < U64
  {
    (a - b) % U64
  }

  /** a + b on sys_time_t (uint64_t). */
  function Add64(a: int, b: int): (r: nat)
    ensures r < U64
  {
    (a + b) % U64
  }

  /** The sys_time_i_t (int64_t) reading of a sys_time_t value. */
  function Signed64(x: nat): (r: int)
    requires x < U64
    ensures -HALF64 <= r < HALF64
  {
    if x < HALF64 then x else x - U64
  }

  /** Adding d ticks to c and measuring the distance back from c gives d,
      and so does its signed reading while d stays below 2^63. */
  lemma AddThenSub(c: nat, d: nat)
    requires c < U64 && d < HALF64
    ensures Sub64(Add64(c, d), c) == d && Signed64(Sub64(Add64(c, d), c)) == d
  {
  }

  datatype TimerState = TimerDeactive | TimerActive

  /** The fields of ktimer_t the core uses; onList is to_head != NULL. */
  datatype Timer = Timer(
    cb: int,
    arg: int,
    initCount: nat,
    roundTicks: nat,
    remain: nat,
    matchAt: nat,
    state: TimerState,
    onList: bool,
    allocFlag: AllocFlag,
    objType: ObjType)

  datatype CmdOp = CmdStart | CmdStop | CmdChg | ArgChg | ArgChgAuto | CmdDel | CmdDynDel

  /** k_timer_queue_cb: first and round for CmdChg, arg for the argument
      changes. */
  datatype Cmd = Cmd(timer: TimerId, op: CmdOp, first: nat, round: nat, arg: int)

  /** One invocation timer->cb(timer, timer->timer_cb_arg). */
  datatype Callback = Callback(timer: TimerId, arg: int)

  /** Sort key of a listed timer: match - g_timer_count, unsigned. */
  function Key(tm: Timer, count: nat): nat
  {
    Sub64(tm.matchAt, count)
  }

  /** timer_cb_proc's test: (sys_time_i_t)match - (sys_time_i_t)count <= 0. */
  predicate Expired(tm: Timer, count: nat)
  {
    Signed64(Key(tm, count)) <= 0
  }

  ghost predicate TimerOk(tm: Timer)
  {
    tm.matchAt < U64 && tm.remain < U64 &&
    1 <= tm.initCount < MAX_TIMER_TICKS && tm.roundTicks < MAX_TIMER_TICKS &&
    (tm.onList <==> tm.state == TimerActive)
  }

  /** What krhino_timer_change has checked before a CmdChg is queued. */
  predicate CmdOk(c: Cmd)
  {
    c.op == CmdChg ==> c.first < MAX_TIMER_TICKS && c.round < MAX_TIMER_TICKS
  }

  predicate InTable(list: seq<TimerId>, timers: map<TimerId, Timer>)
  {
    forall i :: 0 <= i < |list| ==> list[i] in timers
  }

  /** The timer list holds exactly the timers whose to_head is set, once each. */
  ghost predicate ListOk(timers: map<TimerId, Timer>, list: seq<TimerId>)
  {
    NoDup(list) && InTable(list, timers) &&
    (forall i :: 0 <= i < |list| ==> timers[list[i]].onList) &&
    (forall t :: t in timers && timers[t].onList ==> t in list)
  }

  ghost predicate TimersOk(timers: map<TimerId, Timer>)
  {
    forall t :: t in timers ==> TimerOk(timers[t])
  }

  ghost predicate QueueOk(queue: seq<Cmd>, timers: map<TimerId, Timer>)
  {
    forall i :: 0 <= i < |queue| ==> queue[i].timer in timers && CmdOk(queue[i])
  }

  /** The timer list and the timers, at tick count. */
  ghost predicate ListedOk(timers: map<TimerId, Timer>, list: seq<TimerId>, count: nat)
  {
    count < U64 && ListOk(timers, list) && TimersOk(timers)
  }

  ghost predicate ServiceOk(timers: map<TimerId, Timer>, list: seq<TimerId>, count: nat, queue: seq<Cmd>)
  {
    ListedOk(timers, list, count) && QueueOk(queue, timers)
  }

  /** Listed timers in non-decreasing order of match - count. */
  ghost predicate SortedAt(list: seq<TimerId>, timers: map<TimerId, Timer>, count: nat)
    requires InTable(list, timers)
  {
    forall i, j :: 0 <= i < j < |list| ==> Key(timers[list[i]], count) <= Key(timers[list[j]], count)
  }

  /** timer_list_pri_insert's position for a timer whose remain is val:
      before the first entry whose key exceeds val, so after every entry
      with an equal key. */
  function InsertPos(list: seq<TimerId>, timers: map<TimerId, Timer>, count: nat, val: nat): (p: nat)
    requires InTable(list, timers)
    ensures p <= |list|
    ensures forall i :: 0 <= i < p ==> Key(timers[list[i]], count) <= val
    ensures p < |list| ==> Key(timers[list[p]], count) > val
  {
    if list == [] || Key(timers[list[0]], count) > val then 0
    else 1 + InsertPos(list[1..], timers, count, val)
  }

  lemma InsertPosIs(list: seq<TimerId>, timers: map<TimerId, Timer>, count: nat, val: nat, i: nat)
    requires InTable(list, timers) && i <= |list|
    requires forall j :: 0 <= j < i ==> Key(timers[list[j]], count) <= val
    requires i < |list| ==> Key(timers[list[i]], count) > val
    ensures i == InsertPos(list, timers, count, val)
  {
    if list != [] && Key(timers[list[0]], count) <= val {
      assert i > 0;
      InsertPosIs(list[1..], timers, count, val, i - 1);
    }
  }

  /** Inserting a timer whose key is val at InsertPos keeps the list sorted. */
  lemma {:induction false} InsertKeepsSorted(list: seq<TimerId>, timers: map<TimerId, Timer>, count: nat, t: TimerId)
    requires InTable(list, timers) && t in timers && SortedAt(list, timers, count)
    ensures var p := InsertPos(list, timers, count, Key(timers[t], count));
            var r := list[..p] + [t] + list[p..];
            InTable(r, timers) && SortedAt(r, timers, count)
  {
    var v := Key(timers[t], count);
    var p := InsertPos(list, timers, count, v);
    var r := list[..p] + [t] + list[p..];
    assert forall i :: 0 <= i < |r| ==> r[i] == (if i < p then list[i] else if i == p then t else list[i - 1]);
    forall i, j | 0 <= i < j < |r| ensures Key(timers[r[i]], count) <= Key(timers[r[j]], count) {
      if j < p {
      } else if j == p {
      } else if i < p {
      } else if i == p {
        assert Key(timers[list[p]], count) <= Key(timers[list[j - 1]], count);
      } else {
      }
    }
  }

  /** Removing an entry keeps the list sorted. */
  lemma RemoveKeepsSorted(list: seq<TimerId>, timers: map<TimerId, Timer>, count: nat, i: nat)
    requires InTable(list, timers) && i < |list| && SortedAt(list, timers, count)
    ensures InTable(list[..i] + list[i + 1..], timers) && SortedAt(list[..i] + list[i + 1..], timers, count)
  {
    RemoveAtFacts(list, i);
  }

  /** Changing a timer that is not listed changes neither the order of the
      list nor where a new timer goes. */
  lemma {:induction false} UnlistedFrame(list: seq<TimerId>, timers: map<TimerId, Timer>, count: nat, t: TimerId, x: Timer, val: nat)
    requires InTable(list, timers) && t !in list
    ensures InTable(list, timers[t := x])
    ensures SortedAt(list, timers[t := x], count) <==> SortedAt(list, timers, count)
    ensures InsertPos(list, timers[t := x], count, val) == InsertPos(list, timers, count, val)
  {
    assert forall i :: 0 <= i < |list| ==> timers[t := x][list[i]] == timers[list[i]];
    if list != [] {
      UnlistedFrame(list[1..], timers, count, t, x, val);
    }
  }

  /** A timer just (re)started with d ticks to go is not expired. */
  lemma StartedNotExpired(tm: Timer, count: nat, d: nat)
    requires count < U64 && 1 <= d < HALF64 && tm.matchAt == Add64(count, d)
    ensures !Expired(tm, count) && Key(tm, count) == d
  {
    AddThenSub(count, d);
  }

  // ---------------------------------------------------------------------
  // The service invariant under the three kinds of update the timer task
  // makes: a timer off the list changes, a timer is linked, a timer is
  // unlinked.

  lemma ListPut(timers: map<TimerId, Timer>, list: seq<TimerId>, t: TimerId, x: Timer)
    requires ListOk(timers, list) && x.onList == (t in timers && timers[t].onList)
    ensures ListOk(timers[t := x], list)
  {
    var m := timers[t := x];
    forall i | 0 <= i < |list| ensures list[i] in m && m[list[i]].onList {
      assert list[i] in timers && timers[list[i]].onList;
    }
    forall y | y in m && m[y].onList ensures y in list {
      assert y in timers && timers[y].onList;
    }
  }

  lemma {:induction false} ListLink(timers: map<TimerId, Timer>, list: seq<TimerId>, t: TimerId, x: Timer, p: nat)
    requires ListOk(timers, list) && t in timers && !timers[t].onList && x.onList && p <= |list|
    ensures t !in list && ListOk(timers[t := x], list[..p] + [t] + list[p..])
  {
    var m := timers[t := x];
    var r := list[..p] + [t] + list[p..];
    assert t !in list;
    NoDupInsertAt(list, p, t);
    InsertAtMembers(list, p, t);
    forall i | 0 <= i < |r| ensures r[i] in m && m[r[i]].onList {
      if i < p {
        assert r[i] == list[i];
      } else if i > p {
        assert r[i] == list[i - 1];
      }
    }
    forall y | y in m && m[y].onList ensures y in r {
      if y != t {
        assert y in timers && timers[y].onList;
      }
    }
  }

  lemma {:induction false} ListUnlink(timers: map<TimerId, Timer>, list: seq<TimerId>, t: TimerId, x: Timer)
    requires ListOk(timers, list) && t in timers && timers[t].onList && !x.onList
    ensures t in list && ListOk(timers[t := x], Remove(list, t))
  {
    var m := timers[t := x];
    var r := Remove(list, t);
    assert forall i :: 0 <= i < |r| ==> r[i] in list && r[i] != t;
    assert forall y :: y in m && m[y].onList ==> y != t && y in timers && timers[y].onList;
  }

  lemma TimersPut(timers: map<TimerId, Timer>, t: TimerId, x: Timer)
    requires TimersOk(timers) && TimerOk(x)
    ensures TimersOk(timers[t := x])
  {
  }

  lemma QueuePut(queue: seq<Cmd>, timers: map<TimerId, Timer>, t: TimerId, x: Timer)
    requires QueueOk(queue, timers)
    ensures QueueOk(queue, timers[t := x])
  {
  }

  lemma PutFacts(timers: map<TimerId, Timer>, list: seq<TimerId>, count: nat, queue: seq<Cmd>, t: TimerId, x: Timer)
    requires ServiceOk(timers, list, count, queue) && (t in timers ==> !timers[t].onList) && TimerOk(x) && !x.onList
    ensures t !in list
    ensures ServiceOk(timers[t := x], list, count, queue)
  {
    ListPut(timers, list, t, x);
    TimersPut(timers, t, x);
    QueuePut(queue, timers, t, x);
    UnlistedFrame(list, timers, count, t, x, 0);
  }

  lemma LinkFacts(timers: map<TimerId, Timer>, list: seq<TimerId>, count: nat, queue: seq<Cmd>, t: TimerId, x: Timer)
    requires ServiceOk(timers, list, count, queue) && t in timers && !timers[t].onList
    requires TimerOk(x) && x.onList && Key(x, count) == x.remain
    ensures t !in list
    ensures var p := InsertPos(list, timers, count, x.remain);
            InsertPos(list, timers[t := x], count, x.remain) == p &&
            ServiceOk(timers[t := x], list[..p] + [t] + list[p..], count, queue)
  {
    var p := InsertPos(list, timers, count, x.remain);
    ListLink(timers, list, t, x, p);
    TimersPut(timers, t, x);
    QueuePut(queue, timers, t, x);
    UnlistedFrame(list, timers, count, t, x, x.remain);
  }

  lemma UnlinkFacts(timers: map<TimerId, Timer>, list: seq<TimerId>, count: nat, queue: seq<Cmd>, t: TimerId, x: Timer)
    requires ServiceOk(timers, list, count, queue) && t in timers && timers[t].onList && TimerOk(x) && !x.onList
    ensures t in list
    ensures ServiceOk(timers[t := x], Remove(list, t), count, queue)
  {
    ListUnlink(timers, list, t, x);
    TimersPut(timers, t, x);
    QueuePut(queue, timers, t, x);
  }

  /** The list after t is unlinked and linked again with key val. */
  function Relink(list: seq<TimerId>, timers: map<TimerId, Timer>, count: nat, t: TimerId, val: nat): (r: seq<TimerId>)
    requires InTable(list, timers)
  {
    var rest := Remove(list, t);
    var p := InsertPos(rest, timers, count, val);
    rest[..p] + [t] + rest[p..]
  }

  /** What timer_cmd_proc makes of the timers and the list when it applies
      command c at tick count: nothing happens to a control block that is
      no longer a timer; a start lists a deactivated timer init_count
      ticks ahead; a stop unlinks and deactivates; the changes of ticks or
      argument and the deletions apply to a deactivated timer only (a zero
      first for CmdChg, or the wrong allocation flag for a deletion,
      changes nothing); ArgChgAuto stops, changes the argument and starts
      again. */
  ghost function CmdEffect(timers: map<TimerId, Timer>, list: seq<TimerId>, count: nat, c: Cmd): (map<TimerId, Timer>, seq<TimerId>)
    requires c.timer in timers && InTable(list, timers)
  {
    var t := c.timer;
    var tm := timers[t];
    if tm.objType != TimerObjType then (timers, list)
    else match c.op
      case CmdStart =>
        if tm.state == TimerActive then (timers, list)
        else
          var p := InsertPos(list, timers, count, tm.initCount);
          (timers[t := Restarted(tm, count)], list[..p] + [t] + list[p..])
      case CmdStop => (timers[t := tm.(onList := false, state := TimerDeactive)], Remove(list, t))
      case CmdChg =>
        if c.first == 0 || tm.state != TimerDeactive then (timers, list)
        else (timers[t := tm.(initCount := c.first, roundTicks := c.round)], list)
      case ArgChg =>
        if tm.state != TimerDeactive then (timers, list)
        else (timers[t := tm.(arg := c.arg)], list)
      case ArgChgAuto =>
        (timers[t := Restarted(tm.(arg := c.arg), count)], Relink(list, timers, count, t, tm.initCount))
      case CmdDel =>
        if tm.state != TimerDeactive || tm.allocFlag != StaticAlloc then (timers, list)
        else (timers[t := tm.(objType := NoObjType)], list)
      case CmdDynDel =>
        if tm.state != TimerDeactive || tm.allocFlag != DynAlloc then (timers, list)
        else (timers[t := tm.(objType := NoObjType)], list)
  }

  /** Every command keeps the timer list sorted by time to expiry at the
      same tick count, which is what lets timer_cb_proc stop at the first
      timer not yet due. */
  lemma CmdKeepsSorted(timers: map<TimerId, Timer>, list: seq<TimerId>, count: nat, c: Cmd)
    requires ListedOk(timers, list, count) && c.timer in timers && CmdOk(c)
    requires SortedAt(list, timers, count)
    ensures var r := CmdEffect(timers, list, count, c);
            InTable(r.1, r.0) && SortedAt(r.1, r.0, count)
  {
    if timers[c.timer].objType != TimerObjType {
    } else if c.op == CmdStart || c.op == CmdStop || c.op == ArgChgAuto {
      RelistKeepsSorted(timers, list, count, c);
    } else {
      var t := c.timer;
      var tm := timers[t];
      var r := CmdEffect(timers, list, count, c);
      var x := match c.op
        case CmdChg => tm.(initCount := c.first, roundTicks := c.round)
        case ArgChg => tm.(arg := c.arg)
        case _ => tm.(objType := NoObjType);
      assert r.1 == list && (r.0 == timers || (tm.state == TimerDeactive && r.0 == timers[t := x]));
      UnlistedKeepsSorted(list, timers, count, t, x, r.0);
    }
  }

  /** The commands that move a timer on or off the list keep it sorted. */
  lemma RelistKeepsSorted(timers: map<TimerId, Timer>, list: seq<TimerId>, count: nat, c: Cmd)
    requires ListedOk(timers, list, count) && c.timer in timers && SortedAt(list, timers, count)
    requires timers[c.timer].objType == TimerObjType && c.op in {CmdStart, CmdStop, ArgChgAuto}
    ensures var r := CmdEffect(timers, list, count, c);
            InTable(r.1, r.0) && SortedAt(r.1, r.0, count)
  {
    var t := c.timer;
    var tm := timers[t];
    var r := CmdEffect(timers, list, count, c);
    var rest := Remove(list, t);
    if t in list {
      RemoveKeepsSorted(list, timers, count, IndexOf(list, t));
    }
    if c.op == CmdStart {
      if tm.state == TimerDeactive {
        var x := Restarted(tm, count);
        var p := InsertPos(list, timers, count, tm.initCount);
        LinkKeepsSorted(list, timers, count, t, x);
        assert r == (timers[t := x], list[..p] + [t] + list[p..]);
      }
    } else if c.op == CmdStop {
      var x := tm.(onList := false, state := TimerDeactive);
      UnlistedFrame(rest, timers, count, t, x, 0);
      assert r == (timers[t := x], rest);
    } else {
      var x := Restarted(tm.(arg := c.arg), count);
      LinkKeepsSorted(rest, timers, count, t, x);
      assert r == (timers[t := x], Relink(list, timers, count, t, tm.initCount));
    }
  }

  /** A change that leaves the timers as they were or replaces a
      deactivated timer t by x keeps a sorted list sorted. */
  lemma UnlistedKeepsSorted(list: seq<TimerId>, timers: map<TimerId, Timer>, count: nat, t: TimerId, x: Timer,
                            timers': map<TimerId, Timer>)
    requires ListOk(timers, list) && TimersOk(timers) && t in timers && SortedAt(list, timers, count)
    requires timers' == timers || (timers[t].state == TimerDeactive && timers' == timers[t := x])
    ensures InTable(list, timers') && SortedAt(list, timers', count)
  {
    if timers' != timers {
      UnlistedFrame(list, timers, count, t, x, 0);
    }
  }

  /** Linking an unlisted timer t, (re)started at count, where
      timer_list_pri_insert puts it keeps a sorted list sorted. */
  lemma LinkKeepsSorted(list: seq<TimerId>, timers: map<TimerId, Timer>, count: nat, t: TimerId, tm: Timer)
    requires InTable(list, timers) && t !in list && SortedAt(list, timers, count)
    requires count < U64 && tm == Restarted(tm, count) && 1 <= tm.initCount < MAX_TIMER_TICKS
    ensures var p := InsertPos(list, timers, count, tm.initCount);
            var r := list[..p] + [t] + list[p..];
            InTable(r, timers[t := tm]) && SortedAt(r, timers[t := tm], count)
  {
    StartedNotExpired(tm, count, tm.initCount);
    UnlistedFrame(list, timers, count, t, tm, tm.initCount);
    InsertKeepsSorted(list, timers[t := tm], count, t);
  }

  /** What timer_create returns: NULL_PTR for a NULL timer, name or
      callback, then INV_PARAM for tick counts out of range, then what
      queueing the start command returns under auto_run. */
  function CreateStatus(t: Option<TimerId>, hasName: bool, cb: int, first: nat, round: nat, autoRun: bool, full: bool): Status
  {
    if t.None? || !hasName || cb == NULL then NullPtr
    else if first == 0 || first >= MAX_TIMER_TICKS || round >= MAX_TIMER_TICKS then InvParam
    else if autoRun && full then BufQueueFull
    else Success
  }

  /** The expired timers on the list; each firing shrinks this set. */
  ghost function ExpiredOn(list: seq<TimerId>, timers: map<TimerId, Timer>, count: nat): set<TimerId>
  {
    set t | t in list && t in timers && Expired(timers[t], count)
  }

  /** Firing an expired listed timer takes it out of the expired set, whether
      it is relisted unexpired or unlinked. */
  lemma FireShrinks(list: seq<TimerId>, timers: map<TimerId, Timer>, count: nat, t: TimerId, list': seq<TimerId>, x: Timer)
    requires t in list && t in timers && Expired(timers[t], count)
    requires forall y :: y in list' <==> y in list && (y != t || x.onList)
    requires x.onList ==> !Expired(x, count)
    ensures ExpiredOn(list', timers[t := x], count) < ExpiredOn(list, timers, count)
  {
    assert t in ExpiredOn(list, timers, count) && t !in ExpiredOn(list', timers[t := x], count);
  }
  /** The list timer_cb_proc leaves after firing t. */
  function AfterFire(list: seq<TimerId>, timers: map<TimerId, Timer>, count: nat, t: TimerId): seq<TimerId>
    requires InTable(list, timers) && t in timers
  {
    if timers[t].roundTicks > 0 then Relink(list, timers, count, t, timers[t].roundTicks) else Remove(list, t)
  }

  /** Where timer_cb_proc's walk goes on after firing the timer t at index
      i: just after a periodic timer's new place, or at the same index,
      which now holds a one-shot timer's old successor. */
  function NextIndex(list: seq<TimerId>, timers: map<TimerId, Timer>, count: nat, t: TimerId, i: nat): nat
    requires InTable(list, timers) && t in timers
  {
    if timers[t].roundTicks > 0 then InsertPos(Remove(list, t), timers, count, timers[t].roundTicks) + 1 else i
  }

  /** Relinking a listed timer lists the same timers. */
  lemma RelinkMembers(list: seq<TimerId>, timers: map<TimerId, Timer>, count: nat, t: TimerId, val: nat)
    requires InTable(list, timers) && t in list
    ensures forall y :: y in Relink(list, timers, count, t, val) <==> y in list
  {
    var rest := Remove(list, t);
    InsertAtMembers(rest, InsertPos(rest, timers, count, val), t);
  }

  /** Firing a listed timer keeps the list and the timers well formed. */
  lemma AfterFireListed(timers: map<TimerId, Timer>, list: seq<TimerId>, count: nat, t: TimerId)
    requires ListedOk(timers, list, count) && t in list
    ensures ListedOk(timers[t := Fired(timers[t], count)], AfterFire(list, timers, count, t), count)
  {
    var tm := timers[t];
    var x := Fired(tm, count);
    FiredFacts(tm, count);
    TimersPut(timers, t, x);
    if tm.roundTicks > 0 {
      ListRelink(timers, list, t, x, InsertPos(Remove(list, t), timers, count, x.remain));
    } else {
      ListUnlink(timers, list, t, x);
    }
  }

  /** Firing a listed timer keeps the service invariant. */
  lemma AfterFireOk(timers: map<TimerId, Timer>, list: seq<TimerId>, count: nat, queue: seq<Cmd>, t: TimerId)
    requires ServiceOk(timers, list, count, queue) && t in list
    ensures ServiceOk(timers[t := Fired(timers[t], count)], AfterFire(list, timers, count, t), count, queue)
  {
    AfterFireListed(timers, list, count, t);
    QueuePut(queue, timers, t, Fired(timers[t], count));
  }

  lemma ListRelink(timers: map<TimerId, Timer>, list: seq<TimerId>, t: TimerId, x: Timer, p: nat)
    requires ListOk(timers, list) && t in list && x.onList && p <= |Remove(list, t)|
    ensures ListOk(timers[t := x], Remove(list, t)[..p] + [t] + Remove(list, t)[p..])
  {
    var off := x.(onList := false);
    assert t in timers;
    ListUnlink(timers, list, t, off);
    ListLink(timers[t := off], Remove(list, t), t, x, p);
    Overwrite(timers, t, off, x);
  }

  /** Firing keeps the other timers listed, t only when it is periodic, and
      takes t out of the expired set. */
  lemma AfterFireShrinks(timers: map<TimerId, Timer>, list: seq<TimerId>, count: nat, t: TimerId)
    requires ListedOk(timers, list, count) && t in list && Expired(timers[t], count)
    ensures forall y :: y in AfterFire(list, timers, count, t) <==> y in list && (y != t || timers[t].roundTicks > 0)
    ensures ExpiredOn(AfterFire(list, timers, count, t), timers[t := Fired(timers[t], count)], count) <
            ExpiredOn(list, timers, count)
  {
    var tm := timers[t];
    FiredFacts(tm, count);
    if tm.roundTicks > 0 {
      RelinkMembers(list, timers, count, t, tm.roundTicks);
    }
    FireShrinks(list, timers, count, t, AfterFire(list, timers, count, t), Fired(tm, count));
  }

  class TimerService {
    var timers: map<TimerId, Timer>
    /** g_timer_head */
    var list: seq<TimerId>
    /** g_timer_count */
    var count: nat
    /** g_timer_queue: commands waiting for the timer task. */
    var queue: seq<Cmd>
    /** Callbacks fired so far, oldest first. */
    var callbacks: seq<Callback>

    ghost predicate Valid()
      reads this
    {
      ServiceOk(timers, list, count, queue)
    }

    /** ktimer_init: an empty timer list and an empty command queue. */
    constructor ()
      ensures Valid() && timers == map[] && list == [] && count == 0 && queue == [] && callbacks == []
    {
      timers, list, count, queue, callbacks := map[], [], 0, [], [];
    }

    // -------------------------------------------------------------------
    // The list primitives.

    /** timer_list_pri_insert; pos is where the timer went. */
    method TimerListPriInsert(t: TimerId) returns (pos: nat)
      requires t in timers && InTable(list, timers)
      modifies this`list
      ensures pos == InsertPos(old(list), timers, count, timers[t].remain)
      ensures list == old(list)[..pos] + [t] + old(list)[pos..]
    {
      var val := timers[t].remain;
      var i := 0;
      while i < |list| && !(Sub64(timers[list[i]].matchAt, count) > val)
        invariant 0 <= i <= |list|
        invariant forall j :: 0 <= j < i ==> Key(timers[list[j]], count) <= val
      {
        i := i + 1;
      }
      InsertPosIs(list, timers, count, val, i);
      pos := i;
      list := list[..i] + [t] + list[i..];
    }

    /** timer_list_rm: unlink the timer if its to_head is set. */
    method TimerListRm(t: TimerId)
      requires t in timers
      modifies this`list, this`timers
      ensures old(timers[t].onList) ==> list == Remove(old(list), t) && timers == old(timers)[t := old(timers[t]).(onList := false)]
      ensures !old(timers[t].onList) ==> list == old(list) && timers == old(timers)
    {
      if timers[t].onList {
        list := Remove(list, t);
        timers := timers[t := timers[t].(onList := false)];
      }
    }

    // -------------------------------------------------------------------
    // The API: validation, then a command for the timer task.

    /** krhino_buf_queue_send on g_timer_queue; full stands for the
        buffer having no room for one more command, which is then
        refused with RHINO_BUF_QUEUE_FULL. */
    method Send(c: Cmd, full: bool) returns (st: Status)
      requires Valid() && c.timer in timers && CmdOk(c)
      modifies this`queue
      ensures Valid()
      ensures full ==> st == BufQueueFull && queue == old(queue)
      ensures !full ==> st == Success && queue == old(queue) + [c]
    {
      if full {
        return BufQueueFull;
      }
      queue := queue + [c];
      st := Success;
    }

    /** timer_create: the name and cb must not be NULL and the tick
        counts must be in range; the control block is then initialised,
        deactivated and off the list, and with auto_run a start command is
        queued, whose refusal by a full queue is what timer_create returns
        (the timer stays initialised). Creating again over a timer that is
        still listed is not allowed. */
    method TimerCreate(t: Option<TimerId>, hasName: bool, cb: int, first: nat, round: nat, arg: int, autoRun: bool,
                       allocFlag: AllocFlag, full: bool)
      returns (st: Status)
      requires Valid() && (t.Some? && t.value in timers ==> !timers[t.value].onList)
      modifies this`timers, this`queue
      ensures Valid() && list == old(list)
      ensures st == CreateStatus(t, hasName, cb, first, round, autoRun, full)
      ensures st in {NullPtr, InvParam} ==> timers == old(timers) && queue == old(queue)
      ensures st !in {NullPtr, InvParam} ==>
                t.Some? &&
                timers == old(timers)[t.value := Timer(cb, arg, first, round, 0, 0, TimerDeactive, false, allocFlag, TimerObjType)] &&
                queue == old(queue) + (if st == Success && autoRun then [Cmd(t.value, CmdStart, 0, 0, 0)] else [])
    {
      if t.None? || !hasName || cb == NULL {
        return NullPtr;
      }
      if first == 0 {
        return InvParam;
      }
      if first >= MAX_TIMER_TICKS {
        return InvParam;
      }
      if round >= MAX_TIMER_TICKS {
        return InvParam;
      }
      var tm := Timer(cb, arg, first, round, 0, 0, TimerDeactive, false, allocFlag, TimerObjType);
      PutFacts(timers, list, count, queue, t.value, tm);
      timers := timers[t.value := tm];
      st := Success;
      if autoRun {
        st := Send(Cmd(t.value, CmdStart, 0, 0, 0), full);
      }
    }

    /** krhino_timer_dyn_create: a NULL out pointer gives NULL_PTR; the
        control block comes from the heap (allocOk stands for
        krhino_mm_alloc succeeding) and is freed again when timer_create
        fails, so a new timer t exists only after success. */
    method TimerDynCreate(hasOut: bool, t: TimerId, hasName: bool, cb: int, first: nat, round: nat, arg: int,
                          autoRun: bool, allocOk: bool, full: bool)
      returns (st: Status)
      requires Valid() && t !in timers
      modifies this`timers, this`queue
      ensures Valid() && list == old(list)
      ensures !hasOut ==> st == NullPtr
      ensures hasOut && !allocOk ==> st == NoMem
      ensures hasOut && allocOk ==> st == CreateStatus(Some(t), hasName, cb, first, round, autoRun, full)
      ensures st != Success ==> timers == old(timers) && queue == old(queue)
      ensures st == Success ==>
                timers == old(timers)[t := Timer(cb, arg, first, round, 0, 0, TimerDeactive, false, DynAlloc, TimerObjType)] &&
                queue == old(queue) + (if autoRun then [Cmd(t, CmdStart, 0, 0, 0)] else [])
    {
      if !hasOut {
        return NullPtr;
      }
      if !allocOk {
        return NoMem;
      }
      ghost var timers0 := timers;
      st := TimerCreate(Some(t), hasName, cb, first, round, arg, autoRun, DynAlloc, full);
      if st != Success {
        timers := timers - {t};
        assert timers == timers0;
      }
    }

    /** krhino_timer_change: NULL_PTR for a NULL timer, the same bounds as
        creation, then CmdChg. */
    method TimerChange(t: Option<TimerId>, first: nat, round: nat, full: bool) returns (st: Status)
      requires Valid() && (t.Some? ==> t.value in timers)
      modifies this`queue
      ensures Valid()
      ensures t.None? ==> st == NullPtr && queue == old(queue)
      ensures t.Some? && (first == 0 || first >= MAX_TIMER_TICKS || round >= MAX_TIMER_TICKS) ==> st == InvParam && queue == old(queue)
      ensures t.Some? && 0 < first < MAX_TIMER_TICKS && round < MAX_TIMER_TICKS && full ==>
                st == BufQueueFull && queue == old(queue)
      ensures t.Some? && 0 < first < MAX_TIMER_TICKS && round < MAX_TIMER_TICKS && !full ==>
                st == Success && queue == old(queue) + [Cmd(t.value, CmdChg, first, round, 0)]
    {
      if t.None? {
        return NullPtr;
      }
      if first == 0 {
        return InvParam;
      }
      if first >= MAX_TIMER_TICKS {
        return InvParam;
      }
      if round >= MAX_TIMER_TICKS {
        return InvParam;
      }
      st := Send(Cmd(t.value, CmdChg, first, round, 0), full);
    }

    /** krhino_timer_start, _stop, _del, _dyn_del, _arg_change and
        _arg_change_auto: NULL_PTR for a NULL timer, otherwise each only
        queues its command. */
    method TimerRequest(t: Option<TimerId>, op: CmdOp, arg: int, full: bool) returns (st: Status)
      requires Valid() && (t.Some? ==> t.value in timers) && op != CmdChg
      modifies this`queue
      ensures Valid()
      ensures t.None? ==> st == NullPtr && queue == old(queue)
      ensures t.Some? && full ==> st == BufQueueFull && queue == old(queue)
      ensures t.Some? && !full ==> st == Success && queue == old(queue) + [Cmd(t.value, op, 0, 0, arg)]
    {
      if t.None? {
        return NullPtr;
      }
      st := Send(Cmd(t.value, op, 0, 0, arg), full);
    }

    // -------------------------------------------------------------------
    // cmd_proc, one command at a time.

    /** TIMER_CMD_START: a deactivated timer is listed with match =
        count + init_count, behind every timer due no later, and becomes
        active. */
    method CmdStartProc(t: TimerId)
      requires Valid() && t in timers
      modifies this`timers, this`list
      ensures Valid()
      ensures old(timers[t].objType) != TimerObjType || old(timers[t].state) == TimerActive ==>
                timers == old(timers) && list == old(list)
      ensures old(timers[t].objType) == TimerObjType && old(timers[t].state) == TimerDeactive ==>
                var p := InsertPos(old(list), old(timers), count, old(timers[t].initCount));
                timers == old(timers)[t := Restarted(old(timers[t]), count)] &&
                list == old(list)[..p] + [t] + old(list)[p..]
    {
      var tm := timers[t];
      if tm.objType == TimerObjType && tm.state == TimerDeactive {
        ghost var timers0, list0 := timers, list;
        var tm' := Restarted(tm, count);
        RestartedFacts(tm, count);
        LinkFacts(timers, list, count, queue, t, tm');
        timers := timers[t := tm'];
        var pos := TimerListPriInsert(t);
        assert pos == InsertPos(list0, timers0, count, tm.initCount);
      }
    }

    /** TIMER_CMD_STOP: an active timer is unlinked and deactivated; a
        deactivated one already is both. */
    method CmdStopProc(t: TimerId)
      requires Valid() && t in timers
      modifies this`timers, this`list
      ensures Valid()
      ensures old(timers[t].objType) != TimerObjType ==> timers == old(timers) && list == old(list)
      ensures old(timers[t].objType) == TimerObjType ==>
                timers == old(timers)[t := old(timers[t]).(onList := false, state := TimerDeactive)] &&
                list == Remove(old(list), t)
    {
      var tm := timers[t];
      if tm.objType != TimerObjType {
        return;
      }
      if tm.state == TimerDeactive {
        assert t !in list && tm.(onList := false, state := TimerDeactive) == tm;
        assert timers[t := tm] == timers;
        return;
      }
      UnlinkFacts(timers, list, count, queue, t, tm.(onList := false, state := TimerDeactive));
      TimerListRm(t);
      timers := timers[t := timers[t].(state := TimerDeactive)];
    }

    /** TIMER_CMD_CHG: a deactivated timer takes the new first and round
        tick counts (a zero first is ignored). */
    method CmdChgProc(t: TimerId, first: nat, round: nat)
      requires Valid() && t in timers && first < MAX_TIMER_TICKS && round < MAX_TIMER_TICKS
      modifies this`timers
      ensures Valid()
      ensures first == 0 || old(timers[t].objType) != TimerObjType || old(timers[t].state) != TimerDeactive ==>
                timers == old(timers)
      ensures first != 0 && old(timers[t].objType) == TimerObjType && old(timers[t].state) == TimerDeactive ==>
                timers == old(timers)[t := old(timers[t]).(initCount := first, roundTicks := round)]
    {
      if first == 0 {
        return;
      }
      var tm := timers[t];
      if tm.objType != TimerObjType || tm.state != TimerDeactive {
        return;
      }
      PutFacts(timers, list, count, queue, t, tm.(initCount := first, roundTicks := round));
      timers := timers[t := tm.(initCount := first, roundTicks := round)];
    }

    /** TIMER_ARG_CHG: a deactivated timer takes the new callback argument. */
    method ArgChgProc(t: TimerId, arg: int)
      requires Valid() && t in timers
      modifies this`timers
      ensures Valid()
      ensures old(timers[t].objType) != TimerObjType || old(timers[t].state) != TimerDeactive ==>
                timers == old(timers)
      ensures old(timers[t].objType) == TimerObjType && old(timers[t].state) == TimerDeactive ==>
                timers == old(timers)[t := old(timers[t]).(arg := arg)]
    {
      var tm := timers[t];
      if tm.objType != TimerObjType || tm.state != TimerDeactive {
        return;
      }
      PutFacts(timers, list, count, queue, t, tm.(arg := arg));
      timers := timers[t := tm.(arg := arg)];
    }

    /** TIMER_CMD_DEL and TIMER_CMD_DYN_DEL: a deactivated timer with the
        matching allocation flag loses its object type (the dynamic one is
        also freed, which the model does not show). */
    method CmdDelProc(t: TimerId, flag: AllocFlag)
      requires Valid() && t in timers
      modifies this`timers
      ensures Valid()
      ensures (old(timers[t].objType) != TimerObjType || old(timers[t].state) != TimerDeactive ||
               old(timers[t].allocFlag) != flag) ==> timers == old(timers)
      ensures old(timers[t].objType) == TimerObjType && old(timers[t].state) == TimerDeactive &&
              old(timers[t].allocFlag) == flag ==>
                timers == old(timers)[t := old(timers[t]).(objType := NoObjType)]
    {
      var tm := timers[t];
      if tm.objType != TimerObjType || tm.state != TimerDeactive || tm.allocFlag != flag {
        return;
      }
      PutFacts(timers, list, count, queue, t, tm.(objType := NoObjType));
      timers := timers[t := tm.(objType := NoObjType)];
    }

    /** cmd_proc. */
    method CmdProc(c: Cmd, op: CmdOp)
      requires Valid() && c.timer in timers && op != ArgChgAuto
      requires op == CmdChg ==> c.first < MAX_TIMER_TICKS && c.round < MAX_TIMER_TICKS
      modifies this`timers, this`list
      ensures Valid()
      ensures (timers, list) == CmdEffect(old(timers), old(list), count, c.(op := op))
    {
      match op
      case CmdStart => CmdStartProc(c.timer);
      case CmdStop => CmdStopProc(c.timer);
      case CmdChg => CmdChgProc(c.timer, c.first, c.round);
      case ArgChg => ArgChgProc(c.timer, c.arg);
      case CmdDel => CmdDelProc(c.timer, StaticAlloc);
      case CmdDynDel => CmdDelProc(c.timer, DynAlloc);
    }

    /** TIMER_ARG_CHG_AUTO: stop, change the argument, start; so a timer
        that is still a timer object is relisted from now with the new
        argument, wherever it was. */
    method ArgChgAutoProc(t: TimerId, arg: int)
      requires Valid() && t in timers
      modifies this`timers, this`list
      ensures Valid()
      ensures old(timers[t].objType) != TimerObjType ==> timers == old(timers) && list == old(list)
      ensures old(timers[t].objType) == TimerObjType ==>
                timers == old(timers)[t := Restarted(old(timers[t]).(arg := arg), count)] &&
                list == Relink(old(list), old(timers), count, t, old(timers[t].initCount))
    {
      ghost var t0, l0, tm := timers, list, timers[t];
      ghost var off := tm.(onList := false, state := TimerDeactive, arg := arg);
      CmdStopProc(t);
      ArgChgProc(t, arg);
      Overwrite(t0, t, tm.(onList := false, state := TimerDeactive), off);
      CmdStartProc(t);
      if tm.objType == TimerObjType {
        Overwrite(t0, t, off, Restarted(off, count));
        assert Restarted(off, count) == Restarted(tm.(arg := arg), count);
        UnlistedFrame(Remove(l0, t), t0, count, t, off, tm.initCount);
      }
    }

    /** timer_cmd_proc: TIMER_ARG_CHG_AUTO is expanded as above; every other
        command goes to cmd_proc as it is. */
    method TimerCmdProc(c: Cmd)
      requires Valid() && c.timer in timers && CmdOk(c)
      modifies this`timers, this`list
      ensures Valid()
      ensures (timers, list) == CmdEffect(old(timers), old(list), count, c)
    {
      if c.op == ArgChgAuto {
        ArgChgAutoProc(c.timer, c.arg);
      } else {
        CmdProc(c, c.op);
      }
    }

    // -------------------------------------------------------------------
    // timer_cb_proc.

    /** One step of timer_cb_proc: the expired timer at index i fires and is
        unlinked; a periodic one is relisted round_ticks ahead and the walk
        goes on after its new place, a one-shot one stays off the list and
        the walk goes on at the same index, now its old successor. */
    method FireAt(i: nat) returns (next: nat)
      requires NoDup(list) && InTable(list, timers) && i < |list|
      requires timers[list[i]].onList && Expired(timers[list[i]], count)
      modifies this`timers, this`list, this`callbacks
      ensures var t := old(list[i]);
              callbacks == old(callbacks) + [Callback(t, old(timers)[t].arg)] &&
              timers == old(timers)[t := Fired(old(timers)[t], count)] &&
              list == AfterFire(old(list), old(timers), count, t) &&
              next == NextIndex(old(list), old(timers), count, t, i)
    {
      var t := list[i];
      var tm := timers[t];
      callbacks := callbacks + [Callback(t, tm.arg)];
      NoDupIndex(list, i);
      ghost var tms0, rest := timers, Remove(list, t);
      TimerListRm(t);
      assert list == rest;
      Overwrite(tms0, t, tm.(onList := false), Fired(tm, count));
      if tm.roundTicks > 0 {
        ghost var p := InsertPos(rest, tms0, count, tm.roundTicks);
        assert AfterFire(old(list), tms0, count, t) == rest[..p] + [t] + rest[p..];
        assert NextIndex(old(list), tms0, count, t, i) == p + 1;
        var tm' := tm.(remain := tm.roundTicks, matchAt := Add64(count, tm.roundTicks), onList := true);
        UnlistedFrame(rest, tms0, count, t, tm', tm.roundTicks);
        timers := timers[t := tm'];
        assert timers == tms0[t := tm'];
        var pos := TimerListPriInsert(t);
        assert pos == p;
        next := pos + 1;
      } else {
        timers := timers[t := timers[t].(state := TimerDeactive)];
        next := i;
      }
    }

    /** timer_cb_proc: walk the list from the front, firing expired timers,
        and stop at the first unexpired one; the outcome is Walk's. */
    method TimerCbProc()
      requires Valid()
      modifies this`timers, this`list, this`callbacks
      ensures Valid()
      ensures var w := Walk(old(timers), old(list), count, 0);
              timers == w.timers && list == w.list && callbacks == old(callbacks) + w.callbacks
    {
      ghost var w := WalkFrom(timers, list, count, 0, callbacks);
      var i := 0;
      while i < |list|
        invariant Valid() && 0 <= i <= |list|
        invariant WalkFrom(timers, list, count, i, callbacks) == w
        decreases ExpiredOn(list, timers, count)
      {
        var t := list[i];
        var delta := Signed64(Sub64(timers[t].matchAt, count));
        if delta <= 0 {
          WalkFromStep(timers, list, count, queue, i, callbacks);
          i := FireAt(i);
        } else {
          break;
        }
      }
    }

    // -------------------------------------------------------------------
    // The timer task around them.

    /** timer_task after a successful receive: g_timer_count takes the tick
        read after the receive and the received command is applied. */
    method TimerTaskReceive(now: nat)
      requires Valid() && queue != [] && now < U64
      modifies this`timers, this`list, this`count, this`queue
      ensures Valid() && count == now && queue == old(queue)[1..]
      ensures (timers, list) == CmdEffect(old(timers), old(list), now, old(queue[0]))
    {
      var c := queue[0];
      queue := queue[1..];
      count := now;
      TimerCmdProc(c);
    }

    /** timer_task when the earliest timer is due: g_timer_count takes the
        tick and the expiry pass runs. */
    method TimerTaskExpire(now: nat)
      requires Valid() && now < U64
      modifies this`timers, this`list, this`count, this`callbacks
      ensures Valid() && count == now
      ensures var w := Walk(old(timers), old(list), now, 0);
              timers == w.timers && list == w.list && callbacks == old(callbacks) + w.callbacks
    {
      count := now;
      TimerCbProc();
    }
  }

  /** The state of a timer just fired by timer_cb_proc: a periodic one is
      relisted round_ticks ahead, a one-shot one is unlinked and deactivated. */
  function Fired(tm: Timer, count: nat): Timer
  {
    if tm.roundTicks > 0 then tm.(remain := tm.roundTicks, matchAt := Add64(count, tm.roundTicks), onList := true)
    else tm.(onList := false, state := TimerDeactive)
  }

  /** A fired timer stays well formed; it is relisted exactly when it is
      periodic, and then it is round_ticks from expiry, so not expired. */
  lemma FiredFacts(tm: Timer, count: nat)
    requires TimerOk(tm) && tm.onList && count < U64
    ensures TimerOk(Fired(tm, count))
    ensures Fired(tm, count).onList <==> tm.roundTicks > 0
    ensures Fired(tm, count).onList ==> !Expired(Fired(tm, count), count) && Key(Fired(tm, count), count) == tm.roundTicks
  {
    if tm.roundTicks > 0 {
      StartedNotExpired(Fired(tm, count), count, tm.roundTicks);
    }
  }

  /** The state cmd_proc's start command leaves a timer in. */
  function Restarted(tm: Timer, count: nat): Timer
  {
    tm.(matchAt := Add64(count, tm.initCount), remain := tm.initCount, onList := true, state := TimerActive)
  }

  /** A started timer is well formed, active and listed, init_count ticks
      from expiry and so not expired. */
  lemma RestartedFacts(tm: Timer, count: nat)
    requires TimerOk(tm) && count < U64
    ensures var x := Restarted(tm, count);
            TimerOk(x) && x.onList && x.state == TimerActive &&
            Key(x, count) == x.remain == tm.initCount && !Expired(x, count)
  {
    StartedNotExpired(Restarted(tm, count), count, tm.initCount);
  }

  lemma NoDupIndex<T>(s: seq<T>, i: nat)
    requires NoDup(s) && i < |s|
    ensures IndexOf(s, s[i]) == i
  {
  }

  /** Taking the inserted element out again gives the list back. */
  lemma RemoveInserted<T>(s: seq<T>, p: nat, x: T)
    requires p <= |s| && x !in s
    ensures Remove(s[..p] + [x] + s[p..], x) == s
  {
    var r := s[..p] + [x] + s[p..];
    assert r[p] == x && forall j :: 0 <= j < p ==> r[j] != x;
    assert IndexOf(r, x) == p;
    assert r[..p] + r[p + 1..] == s;
  }

  // ---------------------------------------------------------------------
  // timer_cb_proc's walk, as a function of the state it starts from.

  datatype WalkResult = WalkResult(timers: map<TimerId, Timer>, list: seq<TimerId>, callbacks: seq<Callback>)

  /** What timer_cb_proc does from index i on: while the timer at i is
      expired it fires (its callback runs, then it is relisted or unlinked)
      and the walk goes on from NextIndex; the walk stops at the first timer
      not expired or at the end of the list. The result holds the timers
      and the list it leaves and the callbacks it runs, in order. */
  ghost function Walk(timers: map<TimerId, Timer>, list: seq<TimerId>, count: nat, i: nat): (r: WalkResult)
    requires ListedOk(timers, list, count) && i <= |list|
    ensures ListedOk(r.timers, r.list, count)
    ensures r.callbacks != [] <==> i < |list| && Expired(timers[list[i]], count)
    ensures r.callbacks != [] ==> r.callbacks[0] == Callback(list[i], timers[list[i]].arg)
    ensures r.callbacks == [] ==> r.timers == timers && r.list == list
    decreases ExpiredOn(list, timers, count)
  {
    if i < |list| && Expired(timers[list[i]], count) then
      var t := list[i];
      AfterFireListed(timers, list, count, t);
      AfterFireShrinks(timers, list, count, t);
      var w := Walk(timers[t := Fired(timers[t], count)], AfterFire(list, timers, count, t), count,
                    NextIndex(list, timers, count, t, i));
      WalkResult(w.timers, w.list, [Callback(t, timers[t].arg)] + w.callbacks)
    else
      WalkResult(timers, list, [])
  }

  /** The outcome of the walk from index i once the callbacks cbs have
      run. */
  ghost function WalkFrom(timers: map<TimerId, Timer>, list: seq<TimerId>, count: nat, i: nat, cbs: seq<Callback>): WalkResult
    requires ListedOk(timers, list, count) && i <= |list|
  {
    var w := Walk(timers, list, count, i);
    WalkResult(w.timers, w.list, cbs + w.callbacks)
  }

  /** Firing the expired timer at i keeps the service invariant, takes the
      timer out of the expired set and moves the walk on without changing
      where it ends. */
  lemma WalkFromStep(timers: map<TimerId, Timer>, list: seq<TimerId>, count: nat, queue: seq<Cmd>, i: nat, cbs: seq<Callback>)
    requires ServiceOk(timers, list, count, queue) && i < |list| && Expired(timers[list[i]], count)
    ensures var t := list[i];
            var m', l', j := timers[t := Fired(timers[t], count)], AfterFire(list, timers, count, t), NextIndex(list, timers, count, t, i);
            ServiceOk(m', l', count, queue) && j <= |l'| &&
            ExpiredOn(l', m', count) < ExpiredOn(list, timers, count) &&
            WalkFrom(timers, list, count, i, cbs) == WalkFrom(m', l', count, j, cbs + [Callback(t, timers[t].arg)])
  {
    var t := list[i];
    AfterFireOk(timers, list, count, queue, t);
    AfterFireShrinks(timers, list, count, t);
    var cb := Callback(t, timers[t].arg);
    var rest := Walk(timers[t := Fired(timers[t], count)], AfterFire(list, timers, count, t), count,
                     NextIndex(list, timers, count, t, i)).callbacks;
    assert (cbs + [cb]) + rest == cbs + ([cb] + rest);
  }

  predicate NotFired(t: TimerId, cbs: seq<Callback>)
  {
    forall k :: 0 <= k < |cbs| ==> cbs[k].timer != t
  }

  /** Each callback in cbs is for a timer that was listed and expired,
      carries that timer's argument and leaves it in its fired state. */
  ghost predicate FiredEach(timers: map<TimerId, Timer>, list: seq<TimerId>, count: nat,
                            after: map<TimerId, Timer>, cbs: seq<Callback>)
  {
    forall k :: 0 <= k < |cbs| ==>
      cbs[k].timer in list && cbs[k].timer in timers && cbs[k].timer in after &&
      Expired(timers[cbs[k].timer], count) && cbs[k].arg == timers[cbs[k].timer].arg &&
      after[cbs[k].timer] == Fired(timers[cbs[k].timer], count)
  }

  /** No timer has two callbacks in cbs. */
  predicate FiredOnce(cbs: seq<Callback>)
  {
    forall a, b :: 0 <= a < b < |cbs| ==> cbs[a].timer != cbs[b].timer
  }

  /** A timer without a callback in cbs is as it was. */
  ghost predicate FiredOnly(timers: map<TimerId, Timer>, after: map<TimerId, Timer>, cbs: seq<Callback>)
  {
    forall y :: y in timers && NotFired(y, cbs) ==> y in after && after[y] == timers[y]
  }

  /** What r, the outcome of a walk over list and timers, says about the
      timers it fired: each callback is for a timer that was listed and
      expired, carries that timer's argument, runs once, and leaves the
      timer in its fired state; no other timer changes. */
  ghost predicate FiredBy(timers: map<TimerId, Timer>, list: seq<TimerId>, count: nat, r: WalkResult)
  {
    r.timers.Keys == timers.Keys && FiredEach(timers, list, count, r.timers, r.callbacks) &&
    FiredOnce(r.callbacks) && FiredOnly(timers, r.timers, r.callbacks)
  }

  /** timer_cb_proc fires only listed expired timers, each once, with its
      own argument, and changes no other timer. */
  lemma {:induction false} WalkFacts(timers: map<TimerId, Timer>, list: seq<TimerId>, count: nat, i: nat)
    requires ListedOk(timers, list, count) && i <= |list|
    ensures FiredBy(timers, list, count, Walk(timers, list, count, i))
    decreases ExpiredOn(list, timers, count)
  {
    if i < |list| && Expired(timers[list[i]], count) {
      var t := list[i];
      AfterFireListed(timers, list, count, t);
      AfterFireShrinks(timers, list, count, t);
      var m', l' := timers[t := Fired(timers[t], count)], AfterFire(list, timers, count, t);
      var j := NextIndex(list, timers, count, t, i);
      WalkFacts(m', l', count, j);
      FiredByCons(timers, list, count, t, Walk(m', l', count, j));
    }
  }

  /** Firing t and then walking on to r0 fires t first and never again. */
  lemma FiredByCons(timers: map<TimerId, Timer>, list: seq<TimerId>, count: nat, t: TimerId, r0: WalkResult)
    requires ListedOk(timers, list, count) && t in list && Expired(timers[t], count)
    requires FiredBy(timers[t := Fired(timers[t], count)], AfterFire(list, timers, count, t), count, r0)
    ensures FiredBy(timers, list, count, WalkResult(r0.timers, r0.list, [Callback(t, timers[t].arg)] + r0.callbacks))
  {
    var m' := timers[t := Fired(timers[t], count)];
    var l' := AfterFire(list, timers, count, t);
    AfterFireShrinks(timers, list, count, t);
    FiredFacts(timers[t], count);
    NotFiredAgain(timers, list, count, t, r0.timers, r0.callbacks);
    FiredEachCons(timers, list, count, t, r0.timers, r0.callbacks);
    FiredOnceCons(t, timers[t].arg, r0.callbacks);
    FiredOnlyCons(timers, t, timers[t].arg, Fired(timers[t], count), r0.timers, r0.callbacks);
  }

  /** The walk after firing t does not fire it again: t is then unlisted,
      or relisted and not expired. */
  lemma NotFiredAgain(timers: map<TimerId, Timer>, list: seq<TimerId>, count: nat, t: TimerId,
                      after: map<TimerId, Timer>, cbs: seq<Callback>)
    requires ListedOk(timers, list, count) && t in list && Expired(timers[t], count)
    requires FiredEach(timers[t := Fired(timers[t], count)], AfterFire(list, timers, count, t), count, after, cbs)
    ensures NotFired(t, cbs)
  {
    AfterFireShrinks(timers, list, count, t);
    FiredFacts(timers[t], count);
    forall k | 0 <= k < |cbs| ensures cbs[k].timer != t {
      assert cbs[k].timer in AfterFire(list, timers, count, t);
    }
  }

  lemma FiredEachCons(timers: map<TimerId, Timer>, list: seq<TimerId>, count: nat, t: TimerId,
                      after: map<TimerId, Timer>, cbs: seq<Callback>)
    requires InTable(list, timers) && t in list && t in timers && Expired(timers[t], count) && NotFired(t, cbs)
    requires forall y :: y in AfterFire(list, timers, count, t) ==> y in list
    requires FiredEach(timers[t := Fired(timers[t], count)], AfterFire(list, timers, count, t), count, after, cbs)
    requires t in after && after[t] == Fired(timers[t], count)
    ensures FiredEach(timers, list, count, after, [Callback(t, timers[t].arg)] + cbs)
  {
    var c := [Callback(t, timers[t].arg)] + cbs;
    forall k | 0 <= k < |c|
      ensures c[k].timer in list && c[k].timer in timers && c[k].timer in after &&
              Expired(timers[c[k].timer], count) && c[k].arg == timers[c[k].timer].arg &&
              after[c[k].timer] == Fired(timers[c[k].timer], count)
    {
      if k > 0 {
        assert c[k] == cbs[k - 1];
      }
    }
  }

  lemma FiredOnceCons(t: TimerId, a: int, cbs: seq<Callback>)
    requires FiredOnce(cbs) && NotFired(t, cbs)
    ensures FiredOnce([Callback(t, a)] + cbs)
  {
    var c := [Callback(t, a)] + cbs;
    forall a, b | 0 <= a < b < |c| ensures c[a].timer != c[b].timer {
      assert c[b] == cbs[b - 1];
      if a > 0 {
        assert c[a] == cbs[a - 1];
      }
    }
  }

  lemma FiredOnlyCons(timers: map<TimerId, Timer>, t: TimerId, a: int, x: Timer, after: map<TimerId, Timer>, cbs: seq<Callback>)
    requires FiredOnly(timers[t := x], after, cbs)
    ensures FiredOnly(timers, after, [Callback(t, a)] + cbs)
  {
    var c := [Callback(t, a)] + cbs;
    forall y | y in timers && NotFired(y, c) ensures y in after && after[y] == timers[y] {
      assert c[0].timer != y;
      forall k | 0 <= k < |cbs| ensures cbs[k].timer != y {
        assert c[k + 1] == cbs[k];
      }
    }
  }
}
