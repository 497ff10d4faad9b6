// The ready queue of the Rhino kernel on one CPU (runqueue_t, k_sched.c): a
// ring of ready tasks per priority, a bitmap of the priorities whose ring is
// not empty, and the cached highest (numerically lowest) ready priority.
// A ring is modelled as the sequence of its tasks read from
// cur_list_item[prio] onwards, so element 0 is the head, klist_insert before
// the head appends, and moving the head one step on rotates the sequence.
module KSched {
  import opened KObj

  /** krhino_find_first_bit from bit `from` on: the lowest priority at or
      above from whose bit is set, or -1 when there is none. */
  function FirstBitFrom(bm: set<nat>, from: nat): (i: int)
    decreases PRI_MAX - from
    ensures i == -1 || (from <= i < PRI_MAX && i in bm)
    ensures forall p :: from <= p < PRI_MAX && p in bm ==> 0 <= i <= p
  {
    if from >= PRI_MAX then -1
    else if from in bm then from
    else FirstBitFrom(bm, from + 1)
  }

  /** krhino_find_first_bit: the highest ready priority, or -1. */
  function FindFirstBit(bm: set<nat>): (i: int)
    ensures -1 <= i < PRI_MAX
    ensures i >= 0 ==> i in bm && forall p :: 0 <= p < i ==> p !in bm
    ensures i == -1 <==> forall p :: 0 <= p < PRI_MAX ==> p !in bm
  {
    FirstBitFrom(bm, 0)
  }

  /** The value highest_pri should have for bitmap bm: its first bit, and
      RHINO_CONFIG_PRI_MAX (as runqueue_init leaves it) when no bit is set. */
  function HighestOf(bm: set<nat>): nat
  {
    var i := FindFirstBit(bm);
    if i < 0 then PRI_MAX else i
  }

  /** HighestOf is the least priority in the bitmap. */
  lemma HighestIs(bm: set<nat>, h: nat)
    requires h <= PRI_MAX
    requires h < PRI_MAX ==> h in bm
    requires forall p :: 0 <= p < h ==> p !in bm
    ensures HighestOf(bm) == h
  {
  }

  /** Setting the bit of prio lowers the highest priority to prio when prio
      is higher (ready_list_init). */
  lemma HighestAdd(bm: set<nat>, prio: nat)
    requires prio < PRI_MAX
    ensures HighestOf(bm + {prio}) == if prio < HighestOf(bm) then prio else HighestOf(bm)
  {
    var h := HighestOf(bm);
    if prio < h {
      HighestIs(bm + {prio}, prio);
    } else {
      HighestIs(bm + {prio}, h);
    }
  }

  /** Clearing a bit other than the highest one leaves the highest priority
      as it is (the early return of ready_list_rm). */
  lemma HighestRemove(bm: set<nat>, prio: nat)
    requires prio != HighestOf(bm)
    ensures HighestOf(bm - {prio}) == HighestOf(bm)
  {
    HighestIs(bm - {prio}, HighestOf(bm));
  }

  /** ready_list_head_to_tail: the ring's head moves one step on. */
  function Rotate(s: seq<TaskId>): (r: seq<TaskId>)
    requires s != []
    ensures |r| == |s| && r[|r| - 1] == s[0]
    ensures forall i :: 0 <= i < |s| - 1 ==> r[i] == s[i + 1]
  {
    s[1..] + [s[0]]
  }

  /** The ring after its head has moved on n times. */
  function RotateN(s: seq<TaskId>, n: nat): seq<TaskId>
    requires s != []
  {
    if n == 0 then s else Rotate(RotateN(s, n - 1))
  }

  /** Round robin: after n <= |s| moves of the head the ring reads from
      the task that was n-th, so every task of the ring comes to the head
      within |s| moves. */
  lemma {:induction false} RotateNIs(s: seq<TaskId>, n: nat)
    requires s != [] && n <= |s|
    ensures RotateN(s, n) == s[n..] + s[..n]
  {
    if n == 0 {
      assert s[0..] + s[..0] == s;
    } else {
      RotateNIs(s, n - 1);
      var r := s[n - 1..] + s[..n - 1];
      assert r[0] == s[n - 1];
      assert r[1..] == s[n..] + s[..n - 1];
      assert s[..n - 1] + [s[n - 1]] == s[..n];
    }
  }

  /** |s| moves of the head bring the ring back to where it started. */
  lemma RotateFull(s: seq<TaskId>)
    requires s != []
    ensures RotateN(s, |s|) == s
  {
    RotateNIs(s, |s|);
    assert s[|s|..] + s[..|s|] == s;
  }

  /** Rotating keeps the tasks of the ring and that none is there twice. */
  lemma RotateMembers(s: seq<TaskId>)
    requires s != []
    ensures forall y :: y in Rotate(s) <==> y in s
    ensures NoDup(s) ==> NoDup(Rotate(s))
  {
    var r := Rotate(s);
    forall y | y in s ensures y in r {
      var i :| 0 <= i < |s| && s[i] == y;
      if i == 0 { assert r[|r| - 1] == y; } else { assert r[i - 1] == y; }
    }
    if NoDup(s) {
      forall a, b | 0 <= a < b < |r| ensures r[a] != r[b] {
        if b == |r| - 1 { assert r[a] == s[a + 1]; } else { assert r[a] == s[a + 1] && r[b] == s[b + 1]; }
      }
    }
  }

  lemma NoDupSnoc(s: seq<TaskId>, t: TaskId)
    requires NoDup(s) && t !in s
    ensures NoDup(s + [t])
  {
    NoDupInsertAt(s, |s|, t);
    assert s[..|s|] + [t] + s[|s|..] == s + [t];
  }

  lemma NoDupCons(s: seq<TaskId>, t: TaskId)
    requires NoDup(s) && t !in s
    ensures NoDup([t] + s)
  {
    NoDupInsertAt(s, 0, t);
    assert s[..0] + [t] + s[0..] == [t] + s;
  }

  /** A ring with more than one task is not emptied by removing one. */
  lemma RmKeepsBit(ring: seq<TaskId>, t: TaskId)
    requires |ring| > 1
    ensures Remove(ring, t) != []
  {
  }

  class ReadyQueue {
    /** cur_list_item: the ring at each priority, read from its head. */
    const lists: array<seq<TaskId>>
    /** task_bit_map: the priorities whose ring is not empty. */
    var bitmap: set<nat>
    var highestPri: nat

    ghost predicate Valid()
      reads this, lists
    {
      lists.Length == PRI_MAX &&
      (forall p :: p in bitmap ==> p < PRI_MAX && lists[p] != []) &&
      (forall p :: 0 <= p < PRI_MAX && lists[p] != [] ==> p in bitmap) &&
      (forall p :: 0 <= p < PRI_MAX ==> NoDup(lists[p])) &&
      highestPri == HighestOf(bitmap)
    }

    /** The statically allocated, zeroed g_ready_queue after runqueue_init. */
    constructor ()
      ensures Valid() && fresh(lists)
      ensures bitmap == {} && highestPri == PRI_MAX
      ensures forall p :: 0 <= p < PRI_MAX ==> lists[p] == []
    {
      lists := new seq<TaskId>[PRI_MAX];
      bitmap := {};
      highestPri := 0;
      new;
      RunqueueInit();
      HighestIs({}, PRI_MAX);
    }

    /** runqueue_init: highest_pri becomes RHINO_CONFIG_PRI_MAX and every
        ring NULL; the bitmap is left as it is. */
    method RunqueueInit()
      requires lists.Length == PRI_MAX
      modifies this, lists
      ensures highestPri == PRI_MAX && bitmap == old(bitmap)
      ensures forall p :: 0 <= p < PRI_MAX ==> lists[p] == []
    {
      highestPri := PRI_MAX;
      for prio := 0 to PRI_MAX
        invariant forall p :: 0 <= p < prio ==> lists[p] == []
        modifies lists
      {
        lists[prio] := [];
      }
    }

    /** ready_list_init: t alone in the ring at prio, the bit of prio set,
        and highest_pri lowered to prio when prio is higher. */
    method ReadyListInit(t: TaskId, prio: nat)
      requires Valid() && prio < PRI_MAX && lists[prio] == []
      modifies this, lists
      ensures Valid()
      ensures lists[..] == old(lists[..])[prio := [t]]
      ensures bitmap == old(bitmap) + {prio}
      ensures highestPri == if prio < old(highestPri) then prio else old(highestPri)
    {
      lists[prio] := [t];
      HighestAdd(bitmap, prio);
      bitmap := bitmap + {prio};
      if prio < highestPri {
        highestPri := prio;
      }
    }

    /** ready_list_add_tail: t joins the ring at prio as its last task. */
    method AddTail(t: TaskId, prio: nat)
      requires Valid() && prio < PRI_MAX && t !in lists[prio]
      modifies this, lists
      ensures Valid()
      ensures lists[..] == old(lists[..])[prio := old(lists[prio]) + [t]]
      ensures bitmap == old(bitmap) + {prio}
      ensures highestPri == if prio < old(highestPri) then prio else old(highestPri)
    {
      if lists[prio] == [] {
        assert lists[prio] + [t] == [t];
        ReadyListInit(t, prio);
        return;
      }
      HighestAdd(bitmap, prio);
      assert bitmap + {prio} == bitmap;
      NoDupSnoc(lists[prio], t);
      lists[prio] := lists[prio] + [t];
    }

    /** ready_list_add_head: t joins the ring at prio as its head. */
    method AddHead(t: TaskId, prio: nat)
      requires Valid() && prio < PRI_MAX && t !in lists[prio]
      modifies this, lists
      ensures Valid()
      ensures lists[..] == old(lists[..])[prio := [t] + old(lists[prio])]
      ensures bitmap == old(bitmap) + {prio}
      ensures highestPri == if prio < old(highestPri) then prio else old(highestPri)
    {
      if lists[prio] == [] {
        assert [t] + lists[prio] == [t];
        ReadyListInit(t, prio);
        return;
      }
      HighestAdd(bitmap, prio);
      assert bitmap + {prio} == bitmap;
      NoDupCons(lists[prio], t);
      lists[prio] := [t] + lists[prio];
    }

    /** ready_list_rm: t leaves the ring at prio; when it was the ring's
        only task the bit is cleared and, if prio was the highest, the
        highest priority moves to the next set bit. With no bit left the
        kernel reports RHINO_SYS_FATAL_ERR (fatal) and highest_pri is
        left stale. */
    method Rm(t: TaskId, prio: nat) returns (fatal: bool)
      requires Valid() && prio < PRI_MAX && t in lists[prio]
      modifies this, lists
      ensures lists[..] == old(lists[..])[prio := Remove(old(lists[prio]), t)]
      ensures bitmap == if |old(lists[prio])| > 1 then old(bitmap) else old(bitmap) - {prio}
      ensures fatal <==> bitmap == {}
      ensures !fatal ==> Valid()
      ensures fatal ==> highestPri == old(highestPri)
    {
      var ring := lists[prio];
      if |ring| > 1 {
        if ring[0] == t {
          // the head moves on before the task is unlinked
          lists[prio] := ring[1..];
        } else {
          lists[prio] := Remove(ring, t);
        }
        assert lists[prio] == Remove(ring, t);
        RmKeepsBit(ring, t);
        return false;
      }
      assert ring == [t];
      assert Remove(ring, t) == [];
      lists[prio] := [];
      fatal := ClearBit(prio);
    }

    /** The bitmap part of ready_list_rm once the ring at prio is empty. */
    method ClearBit(prio: nat) returns (fatal: bool)
      requires lists.Length == PRI_MAX && prio < PRI_MAX && lists[prio] == [] && prio in bitmap
      requires forall p :: p in bitmap ==> p < PRI_MAX && (p == prio || lists[p] != [])
      requires forall p :: 0 <= p < PRI_MAX && lists[p] != [] ==> p in bitmap
      requires forall p :: 0 <= p < PRI_MAX ==> NoDup(lists[p])
      requires highestPri == HighestOf(bitmap)
      modifies this
      ensures bitmap == old(bitmap) - {prio}
      ensures fatal <==> bitmap == {}
      ensures !fatal ==> Valid()
      ensures fatal ==> highestPri == old(highestPri)
    {
      bitmap := bitmap - {prio};
      if prio != highestPri {
        HighestRemove(old(bitmap), prio);
        assert FindFirstBit(old(bitmap)) >= 0;
        assert highestPri in bitmap;
        return false;
      }
      var i := FindFirstBit(bitmap);
      if i >= 0 {
        highestPri := i;
        fatal := false;
      } else {
        fatal := true;
      }
    }

    /** ready_list_head_to_tail: the head of the ring at prio moves on. */
    method HeadToTail(prio: nat)
      requires Valid() && prio < PRI_MAX && lists[prio] != []
      modifies lists
      ensures Valid()
      ensures lists[..] == old(lists[..])[prio := Rotate(old(lists[prio]))]
    {
      RotateMembers(lists[prio]);
      lists[prio] := Rotate(lists[prio]);
    }

    /** preferred_cpu_ready_task_get on one CPU: the head of the ring at
        highest_pri, which is the highest priority with a ready task. */
    method PreferredReadyTask() returns (t: TaskId)
      requires Valid() && bitmap != {}
      ensures highestPri < PRI_MAX && lists[highestPri] != [] && t == lists[highestPri][0]
      ensures forall p :: 0 <= p < highestPri ==> lists[p] == []
    {
      var p :| p in bitmap;
      assert FindFirstBit(bitmap) >= 0;
      t := lists[highestPri][0];
    }
  }
}
