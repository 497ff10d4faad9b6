// Kernel objects of the Rhino kernel: return codes, task and object control
// blocks and the configuration constants the core reads. Pointers to control
// blocks become handles (TaskId, ObjId) into tables kept by the Kernel class.
module KObj {

  // Configuration (Rhino's default configuration headers).
  const PRI_MAX: nat := 62                 // RHINO_CONFIG_PRI_MAX
  const IDLE_PRI: nat := PRI_MAX - 1       // RHINO_IDLE_PRI
  const TIME_SLICE_DEFAULT: nat := 50      // RHINO_CONFIG_TIME_SLICE_DEFAULT
  const SCHED_MAX_LOCK_COUNT: nat := 200   // SCHED_MAX_LOCK_COUNT
  const TASK_INFO_NUM: nat := 2            // RHINO_CONFIG_TASK_INFO_NUM
  const SUSPEND_NESTED_MAX: nat := 255     // suspend_nested_t is uint8_t
  const MUTEX_NESTED_MAX: nat := 255       // mutex_nested_t is uint8_t
  const SEM_COUNT_MAX: nat := 0xFFFF_FFFF  // sem_count_t is uint32_t
  const NO_WAIT: nat := 0                  // RHINO_NO_WAIT
  const KSCHED_FIFO: nat := 0
  const KSCHED_RR: nat := 1

  type TaskId = nat
  type ObjId = nat

  datatype Option<T> = None | Some(value: T)

  /** kstat_t. Blocked is not a code of the kernel: it stands for a call
      that has put its caller to sleep on a kernel object; what the call
      finally returns is decided when the caller is woken. */
  datatype Status =
    | Success
    | NullPtr
    | NoMem
    | InvParam
    | TaskInvStackSize
    | BeyondMaxPri
    | IdleTaskExist
    | SchedDisable
    | SchedLockCountOvf
    | SchedAlreadyEnabled
    | SuspendedCountOvf
    | InvTaskState
    | TaskNotSuspended
    | TaskSuspendNotAllowed
    | PriChgNotAllowed
    | InvSchedWay
    | KobjTypeErr
    | KobjDelErr
    | MutexNestedOvf
    | MutexOwnerNested
    | MutexNotReleasedByOwner
    | NoPendWait
    | QueueFull
    | QueueNotFull
    | BufQueueFull
    | SemOvf
    | SemTaskWaiting
    | Blocked

  datatype TaskState =
    | Seed | Rdy | Pend | Suspended | PendSuspended | Sleep | SleepSuspended | Deleted

  predicate IsPending(s: TaskState) { s == Pend || s == PendSuspended }
  predicate IsSuspended(s: TaskState) { s == Suspended || s == PendSuspended || s == SleepSuspended }

  datatype AllocFlag = StaticAlloc | DynAlloc

  datatype ObjType = NoObjType | SemObjType | QueueObjType | MutexObjType | TimerObjType

  /** How a pend ended, as the pend helpers record it. */
  datatype BlkState = BlkFinish | BlkDel

  /** The fields of ktask_t the core reads and writes. msg is the message a
      queue hands to a waiting receiver. */
  datatype Tcb = Tcb(
    state: TaskState,
    suspendCount: nat,
    prio: nat,
    bPrio: nat,
    timeSlice: nat,
    timeTotal: nat,
    policy: nat,
    allocFlag: AllocFlag,
    stackSize: nat,
    userInfo: seq<int>,
    mutexList: seq<ObjId>,
    blkObj: Option<ObjId>,
    blkState: BlkState,
    msg: int)

  /** The part of a semaphore, queue or mutex after its blk_obj_t header. */
  datatype Body =
    | SemBody(count: nat, peakCount: nat)
    | QueueBody(buf: seq<int>, size: nat, curNum: nat, peakNum: nat)
    | MutexBody(owner: Option<TaskId>, nested: nat)

  /** A blocking kernel object: the blk_obj_t header (object type, the list
      of waiting tasks, allocation flag) and its body. */
  datatype KObject = KObject(objType: ObjType, blocked: seq<TaskId>, allocFlag: AllocFlag, body: Body)

  /** The larger of two counts: a peak after a count goes up. */
  function Max(a: nat, b: nat): (r: nat)
    ensures r >= a && r >= b && (r == a || r == b)
  {
    if a >= b then a else b
  }

  /** A second update of the same key hides the first. */
  lemma Overwrite<K, V>(m: map<K, V>, key: K, a: V, b: V)
    ensures m[key := a][key := b] == m[key := b]
  {
  }

  // ---------------------------------------------------------------------
  // Sequence helpers for the kernel's lists.

  predicate NoDup<T(==)>(s: seq<T>)
  {
    forall i, j :: 0 <= i < j < |s| ==> s[i] != s[j]
  }

  /** Position of the first occurrence of x. */
  function IndexOf<T(==)>(s: seq<T>, x: T): (i: nat)
    requires x in s
    ensures i < |s| && s[i] == x
    ensures forall j :: 0 <= j < i ==> s[j] != x
  {
    if s[0] == x then 0 else 1 + IndexOf(s[1..], x)
  }

  /** s without its first occurrence of x (s itself when x is absent). */
  function Remove<T(==)>(s: seq<T>, x: T): (r: seq<T>)
    ensures x in s ==> |r| == |s| - 1
    ensures x !in s ==> r == s
    ensures forall y :: y in r ==> y in s
    ensures forall y :: y in s && y != x ==> y in r
    ensures NoDup(s) ==> NoDup(r) && x !in r
  {
    if x !in s then s
    else
      var i := IndexOf(s, x);
      RemoveAtFacts(s, i);
      s[..i] + s[i + 1..]
  }

  lemma RemoveAtFacts<T>(s: seq<T>, i: nat)
    requires i < |s|
    ensures var r := s[..i] + s[i + 1..];
            |r| == |s| - 1 &&
            (forall j :: 0 <= j < i ==> r[j] == s[j]) &&
            (forall j :: i <= j < |r| ==> r[j] == s[j + 1])
  {
  }

  lemma NoDupRemoveAt<T>(s: seq<T>, i: nat)
    requires i < |s| && NoDup(s)
    ensures NoDup(s[..i] + s[i + 1..]) && s[i] !in s[..i] + s[i + 1..]
  {
    var r := s[..i] + s[i + 1..];
    RemoveAtFacts(s, i);
    forall a, b | 0 <= a < b < |r| ensures r[a] != r[b] {
      var a' := if a < i then a else a + 1;
      var b' := if b < i then b else b + 1;
      assert r[a] == s[a'] && r[b] == s[b'];
    }
  }

  lemma NoDupInsertAt<T>(s: seq<T>, i: nat, x: T)
    requires i <= |s| && NoDup(s) && x !in s
    ensures NoDup(s[..i] + [x] + s[i..])
  {
    var r := s[..i] + [x] + s[i..];
    forall a, b | 0 <= a < b < |r| ensures r[a] != r[b] {
      if a == i {
        assert r[b] == s[b - 1];
      } else if b == i {
        assert r[a] == s[a];
      } else {
        var a' := if a < i then a else a - 1;
        var b' := if b < i then b else b - 1;
        assert r[a] == s[a'] && r[b] == s[b'];
      }
    }
  }

  lemma InsertAtMembers<T>(s: seq<T>, i: nat, x: T)
    requires i <= |s|
    ensures forall y :: y in s[..i] + [x] + s[i..] <==> y == x || y in s
  {
    assert s == s[..i] + s[i..];
  }
}
